/**
 * Pure presentation helpers of the client: the badge shown on a product
 * card, the truncation of long text, and the price a product enters the
 * cart with.
 *
 * The product fields these read are optional in JavaScript; a missing flag
 * or a missing/null discount is None. JavaScript truthiness is spelled out:
 * a boolean is truthy when true, a number when it is not 0.
 */
module Utils {
  import opened Schema

  predicate TruthyFlag(b: Option<bool>) {
    b.Some? && b.value
  }

  predicate TruthyNumber(n: Option<int>) {
    n.Some? && n.value != 0
  }

  datatype Badge = DiscountBadge | PopularBadge | NewBadge {
    /** The label shown on the card. */
    function Text(): string {
      match this
      case DiscountBadge => "خصم"
      case PopularBadge => "الأكثر مبيعًا"
      case NewBadge => "جديد"
    }

    /** The styling classes of the badge. */
    function Color(): string {
      match this
      case DiscountBadge => "bg-secondary text-secondary-foreground"
      case PopularBadge => "bg-accent text-accent-foreground"
      case NewBadge => "bg-primary text-primary-foreground"
    }
  }

  /** getProductBadge: a discount wins over popular, popular over featured; otherwise no badge. */
  function GetProductBadge(featured: Option<bool>, popular: Option<bool>, discountPrice: Option<int>): (r: Option<Badge>)
    ensures r == Some(DiscountBadge) <==> TruthyNumber(discountPrice)
    ensures r == Some(PopularBadge) <==> !TruthyNumber(discountPrice) && TruthyFlag(popular)
    ensures r == Some(NewBadge) <==> !TruthyNumber(discountPrice) && !TruthyFlag(popular) && TruthyFlag(featured)
    ensures r.None? <==> !TruthyNumber(discountPrice) && !TruthyFlag(popular) && !TruthyFlag(featured)
  {
    if TruthyNumber(discountPrice) then Some(DiscountBadge)
    else if TruthyFlag(popular) then Some(PopularBadge)
    else if TruthyFlag(featured) then Some(NewBadge)
    else None
  }

  /** The badge of a stored product row. */
  function ProductBadge(p: Product): Option<Badge> {
    GetProductBadge(Some(p.featured), Some(p.popular), p.discountPrice)
  }

  /** A product inserted with only the required fields gets no badge, since the flags default
      to false and the discount to null. */
  lemma NewProductHasNoBadge(id: nat, title: string, description: string, price: int, imageUrl: string, fileUrl: string)
    ensures ProductBadge(NewProduct(id, InsertProduct(title, description, price, imageUrl, fileUrl,
                                                      None, None, None, None, None))).None?
  {
  }

  /** `discountPrice || price`: the discount when it is truthy, the list price otherwise. */
  function EffectivePrice(discountPrice: Option<int>, price: int): (r: int)
    ensures TruthyNumber(discountPrice) ==> r == discountPrice.value
    ensures !TruthyNumber(discountPrice) ==> r == price
  {
    if TruthyNumber(discountPrice) then discountPrice.value else price
  }

  /** A product enters the cart at a price other than its list price only when its card shows
      the discount badge. */
  lemma EffectivePriceMatchesBadge(p: Product)
    ensures EffectivePrice(p.discountPrice, p.price) != p.price ==> ProductBadge(p) == Some(DiscountBadge)
    ensures ProductBadge(p) != Some(DiscountBadge) ==> EffectivePrice(p.discountPrice, p.price) == p.price
  {
  }

  /** truncateText: text of at most maxLength characters is returned unchanged; longer text is
      cut to its first maxLength characters (none for a negative maxLength, as substring
      clamps) followed by "...". */
  function TruncateText(text: string, maxLength: int): (r: string)
    ensures |text| <= maxLength ==> r == text
    ensures |text| > maxLength ==>
      var n := if maxLength < 0 then 0 else maxLength;
      |r| == n + 3 && r[..n] == text[..n] && r[n..] == "..."
  {
    if |text| <= maxLength then text
    else text[..(if maxLength < 0 then 0 else maxLength)] + "..."
  }

  /** The result is never longer than maxLength + 3 characters (3 for a negative maxLength), and
      it is either the text itself or a prefix of the text followed by "...". */
  lemma TruncateTextShape(text: string, maxLength: int)
    ensures |TruncateText(text, maxLength)| <= (if maxLength < 0 then 3 else maxLength + 3)
    ensures TruncateText(text, maxLength) == text ||
            exists n :: 0 <= n <= |text| && TruncateText(text, maxLength) == text[..n] + "..."
  {
    if |text| > maxLength {
      var n := if maxLength < 0 then 0 else maxLength;
      assert TruncateText(text, maxLength) == text[..n] + "...";
    }
  }
}
