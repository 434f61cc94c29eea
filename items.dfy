/**
 * Reviews and store items (project.cpp, classes Review and StoreItem),
 * and the console lines their display() members produce.
 */
module Items {

  /** The C++ `int` a rating is read into. */
  newtype int32 = x: int | -0x8000_0000 <= x < 0x8000_0000

  /**
   * A customer's review. Nothing is validated: the rating is kept as given,
   * also outside the 1..5 the prompt asks for.
   */
  datatype Review = Review(customerName: string, comment: string, rating: int32)

  /**
   * One unit of console output. The label text around the values
   * ("Name: ", ", Rating: ", "/5", ...) is not modelled; each constructor
   * stands for one fixed message or one formatted record.
   */
  datatype Line =
    | ItemLine(name: string, price: string, category: string)
    | ReviewsHeading
    | ReviewLine(customerName: string, rating: int32, comment: string)
    | NoReviewsYet
    | CategoryHeading(category: string)
    | Separator
    | NoItemsFound
    | InvalidCategory
    | ItemDetailsHeading
    | ItemNotFound
    | ReviewAdded

  /**
   * Review::display: reviewer, rating and comment. Nothing is lost or
   * clamped: the review can be read back from its line, rating included.
   */
  function RenderReview(r: Review): (line: Line)
    ensures line.ReviewLine? && Review(line.customerName, line.comment, line.rating) == r
  {
    ReviewLine(r.customerName, r.rating, r.comment)
  }

  /** The loop of displayReviews: one line per review, in insertion order. */
  function RenderReviews(rs: seq<Review>): (lines: seq<Line>)
    ensures |lines| == |rs|
    ensures forall i :: 0 <= i < |rs| ==> lines[i] == RenderReview(rs[i])
  {
    if rs == [] then [] else [RenderReview(rs[0])] + RenderReviews(rs[1..])
  }

  /**
   * A catalog entry. The C++ has no setter for name, price or category, so
   * they are constants here and getName/getPrice/getCategory are the fields
   * themselves; only the review list ever changes, and only by appending.
   */
  class StoreItem {
    const name: string
    const price: string
    const category: string
    var reviews: seq<Review>

    constructor (name: string, price: string, category: string)
      ensures this.name == name && this.price == price && this.category == category
      ensures reviews == []
    {
      this.name := name;
      this.price := price;
      this.category := category;
      reviews := [];
    }

    /** Appends the review as the last one; always succeeds, no limit. */
    method AddReview(review: Review)
      modifies this
      ensures reviews == old(reviews) + [review]
    {
      reviews := reviews + [review];
    }

    /**
     * display(): the item's own line from its current fields, then its
     * reviews in insertion order, or "No reviews yet." when there are none.
     */
    function Render(): (lines: seq<Line>)
      reads this
      ensures |lines| >= 2 && lines[0] == ItemLine(name, price, category)
      ensures NoReviewsYet in lines <==> reviews == []
      ensures reviews != [] ==> |lines| == |reviews| + 2 && lines[1] == ReviewsHeading
      ensures forall i :: 0 <= i < |reviews| ==> lines[i + 2] == RenderReview(reviews[i])
    {
      Display(name, price, category, reviews)
    }
  }

  /**
   * What StoreItem::display prints for an item with these fields and reviews:
   * the item line, then either "Reviews:" and every review in insertion
   * order, or "No reviews yet." when there are none.
   */
  function Display(name: string, price: string, category: string, rs: seq<Review>): (lines: seq<Line>)
    ensures |lines| >= 2 && lines[0] == ItemLine(name, price, category)
    ensures forall i :: 1 <= i < |lines| ==> !lines[i].ItemLine?
    ensures NoReviewsYet in lines <==> rs == []
    ensures rs == [] ==> lines == [ItemLine(name, price, category), NoReviewsYet]
    ensures rs != [] ==>
      && |lines| == |rs| + 2
      && lines[1] == ReviewsHeading
      && forall i :: 0 <= i < |rs| ==> lines[i + 2] == RenderReview(rs[i])
  {
    [ItemLine(name, price, category)] +
      if rs == [] then [NoReviewsYet] else [ReviewsHeading] + RenderReviews(rs)
  }

  /**
   * Appending a review keeps every earlier displayed line of the item and
   * adds the new review's line at the end; on an item without reviews the
   * "No reviews yet." line gives way to the "Reviews:" heading.
   */
  lemma DisplayAfterAddReview(name: string, price: string, category: string, rs: seq<Review>, r: Review)
    ensures rs != [] ==>
      Display(name, price, category, rs + [r]) == Display(name, price, category, rs) + [RenderReview(r)]
    ensures rs == [] ==>
      Display(name, price, category, rs + [r]) == [ItemLine(name, price, category), ReviewsHeading, RenderReview(r)]
  {
  }
}
