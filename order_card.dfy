/** The display helpers of the order card: the category icon, the status
    badge colour and label, and the price line. Icon names are the icon
    set's own strings; colours are the tokens of the app's colour table. */
module OrderCard {
  import opened Entities
  import Lookup
  import Orders

  // ------------------------------------------------------------ category icon

  const DefaultIcon: string := "cube-outline"

  /** The category keys the icon table knows, in lower case. */
  const KnownCategories: set<string> :=
    {"cleaning", "repair", "installation", "tourism", "apartment repair", "ac repair"}

  /** Lower-casing of one character, for the ASCII letters. */
  function LowerChar(c: char): char
  {
    if 'A' <= c <= 'Z' then (c as int + 32) as char else c
  }

  function ToLower(s: string): string
  {
    seq(|s|, i requires 0 <= i < |s| => LowerChar(s[i]))
  }

  /** Icon for a possibly missing category, looked up by its lower-cased text. */
  function CategoryIcon(category: Option<string>): string
  {
    match category
    case None => DefaultIcon
    case Some(c) =>
      var key := ToLower(c);
      if key == "cleaning" then "water-outline"
      else if key == "repair" || key == "installation" then "construct-outline"
      else if key == "tourism" then "airplane-outline"
      else if key == "apartment repair" then "home-outline"
      else if key == "ac repair" then "snow-outline"
      else DefaultIcon
  }

  predicate SameIgnoringCase(s: string, t: string)
  {
    |s| == |t| && forall i :: 0 <= i < |s| ==> LowerChar(s[i]) == LowerChar(t[i])
  }

  /** Two spellings of a category that differ only in letter case get the
      same icon. */
  lemma CategoryIconIgnoresCase(s: string, t: string)
    requires SameIgnoringCase(s, t)
    ensures CategoryIcon(Some(s)) == CategoryIcon(Some(t))
  {
    assert ToLower(s) == ToLower(t);
  }

  /** The default icon is shown exactly for a missing category and for one
      whose lower-cased text is not in the table; repair and installation
      share one icon and no other category has it. */
  lemma CategoryIconTable(category: Option<string>)
    ensures CategoryIcon(category) == DefaultIcon <==>
      category.None? || ToLower(category.value) !in KnownCategories
    ensures CategoryIcon(category) == "construct-outline" <==>
      category.Some? && (ToLower(category.value) == "repair" || ToLower(category.value) == "installation")
  {
  }

  lemma CategoryIconExamples()
    ensures CategoryIcon(Some("Repair")) == CategoryIcon(Some("INSTALLATION")) == "construct-outline"
    ensures CategoryIcon(Some("AC Repair")) == "snow-outline"
    ensures CategoryIcon(Some("")) == CategoryIcon(None) == DefaultIcon
  {
    assert ToLower("Repair") == "repair";
    assert ToLower("INSTALLATION") == "installation";
    assert ToLower("AC Repair") == "ac repair";
    assert ToLower("") == "";
  }

  // ------------------------------------------------------------ status badge

  /** The colour tokens the badge uses. */
  datatype Color = Success | Info | Yellow | Error | Inactive

  function StatusColor(status: string): Color
  {
    if status == COMPLETED then Success
    else if status == IN_PROGRESS then Info
    else if status == PENDING then Yellow
    else if status == CANCELLED then Error
    else Inactive
  }

  /** The four statuses get four different colours, and every other text
      gets the inactive colour. */
  lemma StatusColorTable(status: string)
    ensures StatusColor(status) == Inactive <==> status !in {PENDING, IN_PROGRESS, COMPLETED, CANCELLED}
    ensures StatusColor(COMPLETED) == Success && StatusColor(IN_PROGRESS) == Info
    ensures StatusColor(PENDING) == Yellow && StatusColor(CANCELLED) == Error
  {
  }

  function IsUnderscore(c: char): bool
  {
    c == '_'
  }

  /** `status.replace('_', ' ')`: a string pattern, so only the first
      underscore is replaced. */
  function StatusLabel(s: string): string
  {
    if |s| == 0 then []
    else if s[0] == '_' then [' '] + s[1..]
    else [s[0]] + StatusLabel(s[1..])
  }

  /** The label is the status unchanged when it has no underscore, and
      otherwise the status with its first underscore, and only that one,
      turned into a space. */
  lemma StatusLabelReplacesFirst(s: string)
    ensures Lookup.FindIndex(s, IsUnderscore).None? ==> StatusLabel(s) == s
    ensures Lookup.FindIndex(s, IsUnderscore).Some? ==>
      var i := Lookup.FindIndex(s, IsUnderscore).value;
      StatusLabel(s) == s[..i] + " " + s[i + 1..]
  {
    match Lookup.FindIndex(s, IsUnderscore)
    case None =>
      StatusLabelWithoutUnderscore(s);
    case Some(i) =>
      assert s == s[..i] + "_" + s[i + 1..];
      StatusLabelOfCompound(s[..i], s[i + 1..], s, s[..i] + " " + s[i + 1..]);
  }

  datatype Badge = Badge(color: Color, text: string)

  /** The badge is drawn only for a non-empty status. */
  function StatusBadge(status: string): Option<Badge>
  {
    if status == "" then None else Some(Badge(StatusColor(status), StatusLabel(status)))
  }

  /** The label of a status without an underscore is the status itself. */
  lemma {:induction false} StatusLabelWithoutUnderscore(s: string)
    requires forall i :: 0 <= i < |s| ==> s[i] != '_'
    ensures StatusLabel(s) == s
  {
    if |s| > 0 {
      StatusLabelWithoutUnderscore(s[1..]);
      assert s == [s[0]] + s[1..];
    }
  }

  /** A status made of an underscore-free word, an underscore and any rest
      is labelled with the word, a space and the rest. */
  lemma {:induction false} StatusLabelOfCompound(word: string, rest: string, status: string, text: string)
    requires forall i :: 0 <= i < |word| ==> word[i] != '_'
    requires status == word + "_" + rest && text == word + " " + rest
    ensures StatusLabel(status) == text
  {
    if |word| > 0 {
      StatusLabelOfCompound(word[1..], rest, status[1..], text[1..]);
    }
  }

  lemma InProgressLabel()
    ensures StatusLabel(IN_PROGRESS) == "in progress"
  {
    StatusLabelOfCompound("in", "progress", IN_PROGRESS, "in progress");
  }

  /** Every status the store writes gets a badge in a colour of its own
      (not the inactive one) with a readable label: the status itself, or
      "in progress"; an empty status gets no badge. */
  lemma StoreStatusBadge(status: string)
    requires status == PENDING || status == IN_PROGRESS || status == COMPLETED || status == CANCELLED
    ensures StatusBadge(status).Some? && StatusBadge(status).value.color != Inactive
    ensures StatusBadge(status).value.text == if status == IN_PROGRESS then "in progress" else status
    ensures StatusBadge("") == None
  {
    if status == IN_PROGRESS {
      InProgressLabel();
    } else if status == PENDING {
      StatusLabelWithoutUnderscore(PENDING);
    } else if status == COMPLETED {
      StatusLabelWithoutUnderscore(COMPLETED);
    } else {
      StatusLabelWithoutUnderscore(CANCELLED);
    }
  }

  // ------------------------------------------------------------ price line

  datatype PriceLabel = FixedPrice(price: real) | PriceRange(min: real, max: real)
                      | CurrentBid(bid: real) | PriceNotSet

  /** A numeric field counts only when present and non-zero. */
  predicate Truthy(p: Option<real>)
  {
    p.Some? && p.value != 0.0
  }

  function FormatPrice(fixedPrice: Option<real>, minPrice: Option<real>, maxPrice: Option<real>,
                       currentBid: Option<real>): PriceLabel
  {
    if Truthy(fixedPrice) then FixedPrice(fixedPrice.value)
    else if Truthy(minPrice) && Truthy(maxPrice) then PriceRange(minPrice.value, maxPrice.value)
    else if Truthy(currentBid) then CurrentBid(currentBid.value)
    else PriceNotSet
  }

  /** The four outcomes in priority order, each with the exact condition
      under which it is shown: a fixed price beats the range, the range
      (both ends needed) beats the current bid. */
  lemma FormatPricePriority(fixedPrice: Option<real>, minPrice: Option<real>, maxPrice: Option<real>,
                            currentBid: Option<real>)
    ensures var r := FormatPrice(fixedPrice, minPrice, maxPrice, currentBid);
      && (r.FixedPrice? <==> Truthy(fixedPrice))
      && (r.PriceRange? <==> !Truthy(fixedPrice) && Truthy(minPrice) && Truthy(maxPrice))
      && (r.CurrentBid? <==> !Truthy(fixedPrice) && !(Truthy(minPrice) && Truthy(maxPrice)) && Truthy(currentBid))
      && (r.PriceNotSet? <==>
            !Truthy(fixedPrice) && !(Truthy(minPrice) && Truthy(maxPrice)) && !Truthy(currentBid))
    ensures Truthy(fixedPrice) ==> FormatPrice(fixedPrice, minPrice, maxPrice, currentBid) == FixedPrice(fixedPrice.value)
  {
  }

  /** A zero price counts as absent: a zero at either end of the range hides
      the range. */
  lemma ZeroPriceIsAbsent(maxPrice: real, currentBid: Option<real>)
    ensures FormatPrice(None, Some(0.0), Some(maxPrice), currentBid) ==
            FormatPrice(Some(0.0), None, None, currentBid)
    ensures FormatPrice(None, Some(0.0), Some(maxPrice), None) == PriceNotSet
  {
  }

  /** The price line of an order: its fixed price, range and current bid. */
  function OrderPrice(o: Order): PriceLabel
  {
    FormatPrice(o.fixedPrice, Some(o.minPrice), Some(o.maxPrice), o.currentBid)
  }

  /** An order created with a non-zero range keeps showing the range after
      the bid screen records a current bid on it: the current bid never
      reaches the price line of such an order. */
  lemma CurrentBidHiddenByRange(d: OrderData, id: string, now: string, bid: real)
    requires d.minPrice != 0.0 && d.maxPrice != 0.0
    ensures OrderPrice(Orders.NewOrder(d, id, now)) == PriceRange(d.minPrice, d.maxPrice)
    ensures OrderPrice(Orders.Merge(Orders.NewOrder(d, id, now), NoUpdate.(currentBid := Some(bid)))) ==
            PriceRange(d.minPrice, d.maxPrice)
  {
  }

  /** The text of the price line, given how the runtime prints a number. */
  function PriceText(p: PriceLabel, show: real -> string): string
  {
    match p
    case FixedPrice(x) => show(x) + " AED"
    case PriceRange(lo, hi) => show(lo) + "-" + show(hi) + " AED"
    case CurrentBid(x) => "Current Bid: " + show(x) + " AED"
    case PriceNotSet => "Price not set"
  }

  /** Whatever the number printing, "Price not set" appears exactly when no
      price is known: every other line ends in the currency. */
  lemma PriceNotSetOnlyWithoutPrice(p: PriceLabel, show: real -> string)
    ensures PriceText(p, show) == "Price not set" <==> p.PriceNotSet?
  {
    var t := PriceText(p, show);
    if !p.PriceNotSet? {
      assert t[|t| - 4..] == " AED";
      assert "Price not set"[9..] == " set";
    }
  }
}
