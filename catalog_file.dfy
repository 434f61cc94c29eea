/**
 * The inventory.txt record format (project.cpp, Manager::addItem and
 * Store::run) as a pure pair: the text the appends produce, and the
 * entries the `>> name >> price >> category` loop reads back. Opening,
 * reading and writing the file are not modelled.
 */
module CatalogFile {

  /** The three fields a record carries; reviews are never written. */
  datatype Entry = Entry(name: string, price: string, category: string)

  /** The characters `>>` on a string skips and stops at (C locale isspace). */
  predicate IsSpace(ch: char)
  {
    ch == ' ' || ch == '\t' || ch == '\n' || ch == '\r' || ch == '\U{000B}' || ch == '\U{000C}'
  }

  /** A field that survives the round trip: non-empty and without white space. */
  predicate IsToken(w: string)
  {
    |w| > 0 && forall i :: 0 <= i < |w| ==> !IsSpace(w[i])
  }

  /** The text holds no line break. */
  predicate NoNewline(s: string)
  {
    forall i :: 0 <= i < |s| ==> s[i] != '\n'
  }

  /** One appended line: `name price category` and a newline. */
  function Record(e: Entry): (line: string)
    ensures |line| > 0 && line[|line| - 1] == '\n'
    ensures NoNewline(e.name) && NoNewline(e.price) && NoNewline(e.category) ==>
      NoNewline(line[..|line| - 1])
  {
    e.name + " " + e.price + " " + e.category + "\n"
  }

  /**
   * The file after appending these entries, in order, to an empty file.
   * Nothing written is ever rewritten: the file after the first k additions
   * is a prefix of the file after all of them.
   */
  function Save(es: seq<Entry>): (text: string)
    ensures forall k :: 0 <= k < |es| ==> Save(es[..k]) <= text
    decreases |es|
  {
    if es == [] then ""
    else
      var rest := Save(es[1..]);
      assert forall k :: 0 < k < |es| ==> es[..k][1..] == es[1..][..k - 1];
      Record(es[0]) + rest
  }

  /** The length of the run of non-space characters s starts with. */
  function WordLength(s: string): (n: nat)
    ensures n <= |s|
    ensures forall i :: 0 <= i < n ==> !IsSpace(s[i])
    ensures n < |s| ==> IsSpace(s[n])
  {
    if s == [] || IsSpace(s[0]) then 0 else 1 + WordLength(s[1..])
  }

  /** The words successive `>>` extractions read: maximal non-space runs. */
  function Tokens(s: string): (ts: seq<string>)
    ensures forall i :: 0 <= i < |ts| ==> IsToken(ts[i])
    decreases |s|
  {
    if s == [] then []
    else if IsSpace(s[0]) then Tokens(s[1..])
    else
      var n := WordLength(s);
      [s[..n]] + Tokens(s[n..])
  }

  /** Consecutive words taken three at a time; an incomplete last triple is dropped. */
  function Group(ts: seq<string>): (es: seq<Entry>)
    ensures |es| == |ts| / 3
    ensures forall i :: 0 <= i < |es| ==> es[i] == Entry(ts[3 * i], ts[3 * i + 1], ts[3 * i + 2])
  {
    if |ts| < 3 then []
    else
      var rest := Group(ts[3..]);
      assert forall i :: 0 <= i < |rest| ==> ts[3..][3 * i] == ts[3 * (i + 1)];
      [Entry(ts[0], ts[1], ts[2])] + rest
  }

  /** The entries the load loop of Store::run adds, in file order. */
  function Load(text: string): (es: seq<Entry>)
    ensures forall i :: 0 <= i < |es| ==> ValidEntry(es[i])
  {
    Group(Tokens(text))
  }

  /** Appending a record only ever adds text at the end of the file. */
  lemma {:induction false} SaveAppend(es: seq<Entry>, e: Entry)
    ensures Save(es + [e]) == Save(es) + Record(e)
  {
    if es == [] {
      assert Save([e]) == Record(e) + Save([]) == Record(e);
    } else {
      assert (es + [e])[1..] == es[1..] + [e];
      SaveAppend(es[1..], e);
    }
  }

  lemma {:induction false} WordLengthOfToken(w: string, sp: char, rest: string)
    requires IsToken(w) && IsSpace(sp)
    ensures WordLength(w + [sp] + rest) == |w|
    decreases |w|
  {
    var s := w + [sp] + rest;
    if |w| > 1 {
      assert s[1..] == w[1..] + [sp] + rest;
      assert !IsSpace(w[0]);
      WordLengthOfToken(w[1..], sp, rest);
    } else {
      assert s[1..] == [sp] + rest;
    }
  }

  /** A token followed by a space is read as exactly that token. */
  lemma TokensOfWord(w: string, sp: char, rest: string)
    requires IsToken(w) && IsSpace(sp)
    ensures Tokens(w + [sp] + rest) == [w] + Tokens(rest)
  {
    var s := w + [sp] + rest;
    WordLengthOfToken(w, sp, rest);
    assert !IsSpace(s[0]);
    assert s[..|w|] == w;
    assert s[|w|..] == [sp] + rest;
    assert ([sp] + rest)[1..] == rest;
  }

  predicate ValidEntry(e: Entry)
  {
    IsToken(e.name) && IsToken(e.price) && IsToken(e.category)
  }

  /** A record of token fields reads back as its three fields. */
  lemma RecordTokens(e: Entry, rest: string)
    requires ValidEntry(e)
    ensures Tokens(Record(e) + rest) == [e.name, e.price, e.category] + Tokens(rest)
  {
    var tail := e.category + ['\n'] + rest;
    var mid := e.price + [' '] + tail;
    assert Record(e) + rest == e.name + [' '] + mid;
    calc {
      Tokens(Record(e) + rest);
      Tokens(e.name + [' '] + mid);
      { TokensOfWord(e.name, ' ', mid); }
      [e.name] + Tokens(mid);
      { TokensOfWord(e.price, ' ', tail); }
      [e.name] + ([e.price] + Tokens(tail));
      { TokensOfWord(e.category, '\n', rest); }
      [e.name] + ([e.price] + ([e.category] + Tokens(rest)));
      [e.name, e.price, e.category] + Tokens(rest);
    }
  }

  /**
   * Round trip: entries whose fields are non-empty and free of white space
   * load back exactly as they were saved (without reviews, which the format
   * does not carry).
   */
  lemma {:induction false} LoadSave(es: seq<Entry>)
    requires forall i :: 0 <= i < |es| ==> ValidEntry(es[i])
    ensures Load(Save(es)) == es
  {
    if es != [] {
      var e := es[0];
      RecordTokens(e, Save(es[1..]));
      LoadSave(es[1..]);
      var ts := Tokens(Save(es[1..]));
      assert ([e.name, e.price, e.category] + ts)[3..] == ts;
    }
  }

  /**
   * Whatever a file holds, the entries loaded from it are saved and loaded
   * again unchanged: the format is stable from the first load on.
   */
  lemma ResaveIsStable(text: string)
    ensures Load(Save(Load(text))) == Load(text)
  {
    LoadSave(Load(text));
  }

  /**
   * The reverse of the round trip's requirement: a name typed with a space
   * in it (addItem reads it with getline) is read back as two fields, every
   * later field shifts by one, and the incomplete last triple is dropped.
   */
  lemma SpaceInNameShiftsFields(first: string, second: string, price: string, category: string)
    requires IsToken(first) && IsToken(second) && IsToken(price) && IsToken(category)
    ensures Load(Save([Entry(first + " " + second, price, category)])) == [Entry(first, second, price)]
  {
    var e := Entry(first + " " + second, price, category);
    var shifted := Entry(second, price, category);
    var ts := [first, second, price, category];
    assert Record(e) == first + [' '] + (Record(shifted) + "");
    calc {
      Load(Save([e]));
      { assert Save([e]) == Record(e) + Save([]) == Record(e); }
      Group(Tokens(Record(e)));
      { TokensOfWord(first, ' ', Record(shifted) + ""); }
      Group([first] + Tokens(Record(shifted) + ""));
      { RecordTokens(shifted, ""); }
      Group(ts);
      { assert ts[3..] == [category]; }
      [Entry(first, second, price)] + Group([category]);
    }
  }
}
