/**
 * `parse_items`: the items field of a sale is split on commas, each segment is stripped and
 * matched first against
 *   `^(?P<size>\w+)\s+(?P<item_name>[a-zA-Z\s]+)\s+-\s+(?P<variant>[a-zA-Z\s]+)\s+-\s+(?P<price>[0-9.]+)$`
 * and then against the same pattern without the variant part. The groups are stripped and the
 * price goes through `float()`; a segment that matches neither pattern is skipped, and a price
 * that `float()` refuses raises out of the loop, into the handler that returns what was
 * collected so far.
 *
 * `\w` is read as the ASCII word characters, `\s` as the characters `str.isspace` accepts.
 * None of `\w`, `\s`, `[a-zA-Z\s]` and `[0-9.]` matches `-`, so in a matching segment the
 * hyphens are exactly the literal ones of the pattern: the matcher splits on them and checks
 * each piece on its own.
 */
module ItemParser {

  import opened Wrappers
  import opened Text
  import opened Decimal

  /** The dictionary emitted for one item; it is also the product key of the normalisers. */
  datatype Item = Item(itemName: string, variant: Option<string>, size: string, price: real)

  /** The stripped groups of a match; `variant` is None for the pattern without one. */
  datatype Groups = Groups(size: string, itemName: string, variant: Option<string>, priceText: string)

  /** What happens to one segment: skipped, `float()` raising on its price, or an item. */
  datatype Outcome = NoMatch | BadPrice | Parsed(item: Item)

  predicate AllWord(t: string) { forall i :: 0 <= i < |t| ==> IsWordChar(t[i]) }

  predicate AllName(t: string) { forall i :: 0 <= i < |t| ==> IsNameChar(t[i]) }

  predicate AllPrice(t: string) { forall i :: 0 <= i < |t| ==> IsPriceChar(t[i]) }

  /** `\s+[a-zA-Z\s]+\s+` matches the whole of `t`. */
  predicate Padded(t: string) {
    |t| >= 3 && IsSpace(t[0]) && IsSpace(t[|t| - 1]) && AllName(t)
  }

  /** The run of word characters that opens `s`: all that `\w+` can take before `\s+`. */
  function WordRun(s: string): (k: nat)
    ensures k <= |s| && AllWord(s[..k])
    ensures k < |s| ==> !IsWordChar(s[k])
  {
    if |s| > 0 && IsWordChar(s[0]) then
      var k := 1 + WordRun(s[1..]);
      assert s[..k] == [s[0]] + s[1..][..k - 1];
      k
    else 0
  }

  /** `\w+\s+[a-zA-Z\s]+\s+` against the text before the first `-`: the size and the name. */
  function MatchHead(a: string): Option<(string, string)> {
    var k := WordRun(a);
    if k > 0 && Padded(a[k..]) then Some((a[..k], Strip(a[k..]))) else None
  }

  /** `\s+[0-9.]+$` against the text after the last `-`: the price. */
  function MatchTail(c: string): Option<string> {
    var price := TrimLeft(c);
    if |price| < |c| && |price| > 0 && AllPrice(price) then Some(price) else None
  }

  /** The pattern with a variant, on a stripped segment. */
  function MatchWithVariant(s: string): Option<Groups> {
    var parts := SplitOn(s, '-');
    if |parts| != 3 || !Padded(parts[1]) then None
    else
      match (MatchHead(parts[0]), MatchTail(parts[2]))
      case (Some((size, name)), Some(price)) => Some(Groups(size, name, Some(Strip(parts[1])), price))
      case _ => None
  }

  /** The pattern without a variant, on a stripped segment. */
  function MatchWithoutVariant(s: string): Option<Groups> {
    var parts := SplitOn(s, '-');
    if |parts| != 2 then None
    else
      match (MatchHead(parts[0]), MatchTail(parts[1]))
      case (Some((size, name)), Some(price)) => Some(Groups(size, name, None, price))
      case _ => None
  }

  /** The two patterns in the order the loop tries them. */
  function MatchSegment(s: string): Option<Groups> {
    var first := MatchWithVariant(s);
    if first.Some? then first else MatchWithoutVariant(s)
  }

  /** One iteration of the loop: strip, match, convert the price. */
  function ParseSegment(segment: string): Outcome {
    match MatchSegment(Strip(segment))
    case None => NoMatch
    case Some(g) =>
      match PyFloat(g.priceText)
      case None => BadPrice
      case Some(price) => Parsed(Item(g.itemName, g.variant, g.size, price))
  }

  /** The list `parse_items` returns for these segments: the items in segment order, up to the
      first segment whose price `float()` refuses. */
  function Collect(segments: seq<string>): seq<Item> {
    if |segments| == 0 then []
    else
      match ParseSegment(segments[0])
      case BadPrice => []
      case NoMatch => Collect(segments[1..])
      case Parsed(item) => [item] + Collect(segments[1..])
  }

  /** `parse_items(column)` on a text. */
  function ParsedItems(column: string): seq<Item> {
    Collect(SplitOn(column, ','))
  }

  /** Reference: the items of every segment that yields one, in order, with no early exit. */
  function Kept(segments: seq<string>): seq<Item> {
    if |segments| == 0 then []
    else
      var rest := Kept(segments[1..]);
      match ParseSegment(segments[0])
      case Parsed(item) => [item] + rest
      case _ => rest
  }

  /** `parse_items(column)`: the loop over the segments, returning early where `float()` raises. */
  method ParseItems(column: string) returns (items: seq<Item>)
    ensures items == ParsedItems(column)
  {
    var segments := SplitOn(column, ',');
    items := [];
    var i := 0;
    while i < |segments|
      invariant 0 <= i <= |segments|
      invariant items + Collect(segments[i..]) == Collect(segments)
    {
      assert segments[i..][1..] == segments[i + 1..];
      match ParseSegment(segments[i]) {
        case BadPrice =>
          assert items + [] == items;
          return;
        case NoMatch =>
        case Parsed(item) =>
          assert items + Collect(segments[i..]) == items + [item] + Collect(segments[i + 1..]);
          items := items + [item];
      }
      i := i + 1;
    }
    assert items + [] == items;
  }

  // ---------------------------------------------------------------- the patterns

  lemma NoHyphenIn(t: string)
    requires AllName(t) || AllWord(t) || AllPrice(t) || AllSpace(t)
    ensures '-' !in t
  {
    forall i | 0 <= i < |t| ensures t[i] != '-' {
    }
  }

  lemma {:induction false} WordRunOf(w: string, rest: string)
    requires AllWord(w) && |rest| > 0 && !IsWordChar(rest[0])
    ensures WordRun(w + rest) == |w|
  {
    if |w| > 0 {
      assert (w + rest)[1..] == w[1..] + rest;
      WordRunOf(w[1..], rest);
    }
  }

  lemma HeadOf(size: string, head: string)
    requires |size| > 0 && AllWord(size) && Padded(head)
    ensures MatchHead(size + head) == Some((size, Strip(head)))
  {
    WordRunOf(size, head);
    assert (size + head)[..|size|] == size && (size + head)[|size|..] == head;
  }

  lemma TailOf(gap: string, price: string)
    requires |gap| > 0 && AllSpace(gap) && |price| > 0 && AllPrice(price)
    ensures MatchTail(gap + price) == Some(price)
  {
    TrimLeftSpacePrefix(gap, price);
    assert !IsSpace(price[0]);
  }

  lemma TailShape(c: string)
    requires MatchTail(c).Some?
    ensures c == c[..|c| - |MatchTail(c).value|] + MatchTail(c).value
    ensures |c[..|c| - |MatchTail(c).value|]| > 0 && AllSpace(c[..|c| - |MatchTail(c).value|])
  {
    TrimLeftShape(c);
  }

  /** Completeness of the pattern with a variant: every text it describes is matched, with
      the groups it describes. `head` is what `\s+(?P<item_name>[a-zA-Z\s]+)\s+` reads and
      `middle` what `\s+(?P<variant>[a-zA-Z\s]+)\s+` reads; stripping the group gives the same
      text whichever way backtracking shares the whitespace out. */
  lemma WithVariantComplete(size: string, head: string, middle: string, gap: string, price: string)
    requires |size| > 0 && AllWord(size) && Padded(head) && Padded(middle)
    requires |gap| > 0 && AllSpace(gap) && |price| > 0 && AllPrice(price)
    ensures MatchWithVariant(size + head + "-" + middle + "-" + gap + price)
         == Some(Groups(size, Strip(head), Some(Strip(middle)), price))
  {
    NoHyphenIn(size); NoHyphenIn(head); NoHyphenIn(middle); NoHyphenIn(gap); NoHyphenIn(price);
    var s := size + head + "-" + middle + "-" + gap + price;
    assert s == (size + head) + ['-'] + (middle + ['-'] + (gap + price));
    SplitOnCut(size + head, middle + ['-'] + (gap + price), '-');
    SplitOnCut(middle, gap + price, '-');
    SplitOnNoSeparator(gap + price, '-');
    assert SplitOn(s, '-') == [size + head, middle, gap + price];
    HeadOf(size, head);
    TailOf(gap, price);
  }

  lemma PiecesWithoutVariant(size: string, head: string, gap: string, price: string)
    requires |size| > 0 && AllWord(size) && Padded(head)
    requires |gap| > 0 && AllSpace(gap) && |price| > 0 && AllPrice(price)
    ensures SplitOn(size + head + "-" + gap + price, '-') == [size + head, gap + price]
  {
    NoHyphenIn(size); NoHyphenIn(head); NoHyphenIn(gap); NoHyphenIn(price);
    assert size + head + "-" + gap + price == (size + head) + ['-'] + (gap + price);
    SplitOnCut(size + head, gap + price, '-');
    SplitOnNoSeparator(gap + price, '-');
  }

  /** Completeness of the pattern without a variant. */
  lemma WithoutVariantComplete(size: string, head: string, gap: string, price: string)
    requires |size| > 0 && AllWord(size) && Padded(head)
    requires |gap| > 0 && AllSpace(gap) && |price| > 0 && AllPrice(price)
    ensures MatchWithoutVariant(size + head + "-" + gap + price) == Some(Groups(size, Strip(head), None, price))
  {
    PiecesWithoutVariant(size, head, gap, price);
    HeadOf(size, head);
    TailOf(gap, price);
  }

  /** Soundness of the pattern with a variant: a text it accepts is made of the pieces the
      regular expression describes, and the groups are those pieces stripped. */
  lemma WithVariantSound(s: string) returns (head: string, middle: string, gap: string)
    requires MatchWithVariant(s).Some?
    ensures var g := MatchWithVariant(s).value;
      && s == g.size + head + "-" + middle + "-" + gap + g.priceText
      && |g.size| > 0 && AllWord(g.size) && Padded(head) && Padded(middle)
      && |gap| > 0 && AllSpace(gap) && |g.priceText| > 0 && AllPrice(g.priceText)
      && g.itemName == Strip(head) && g.variant == Some(Strip(middle))
  {
    var parts := SplitOn(s, '-');
    var g := MatchWithVariant(s).value;
    JoinSplit(s, '-');
    assert Join(parts[2..], "-") == parts[2];
    assert Join(parts[1..], "-") == parts[1] + "-" + parts[2];
    assert s == parts[0] + "-" + (parts[1] + "-" + parts[2]);
    var k := WordRun(parts[0]);
    head := parts[0][k..];
    assert parts[0] == g.size + head;
    middle := parts[1];
    TailShape(parts[2]);
    gap := parts[2][..|parts[2]| - |g.priceText|];
    assert parts[2] == gap + g.priceText;
  }

  /** Soundness of the pattern without a variant. */
  lemma WithoutVariantSound(s: string) returns (head: string, gap: string)
    requires MatchWithoutVariant(s).Some?
    ensures var g := MatchWithoutVariant(s).value;
      && s == g.size + head + "-" + gap + g.priceText
      && |g.size| > 0 && AllWord(g.size) && Padded(head)
      && |gap| > 0 && AllSpace(gap) && |g.priceText| > 0 && AllPrice(g.priceText)
      && g.itemName == Strip(head) && g.variant.None?
  {
    var parts := SplitOn(s, '-');
    var g := MatchWithoutVariant(s).value;
    JoinSplit(s, '-');
    assert Join(parts[1..], "-") == parts[1];
    assert s == parts[0] + "-" + parts[1];
    var k := WordRun(parts[0]);
    head := parts[0][k..];
    assert parts[0] == g.size + head;
    TailShape(parts[1]);
    gap := parts[1][..|parts[1]| - |g.priceText|];
    assert parts[1] == gap + g.priceText;
  }

  /** The two patterns never both match: they need different numbers of hyphens, so trying
      the one with a variant first decides nothing that the text does not. */
  lemma PatternsExclusive(s: string)
    ensures !(MatchWithVariant(s).Some? && MatchWithoutVariant(s).Some?)
  {
  }

  // ---------------------------------------------------------------- the items

  /** A field as emitted: stripped, and free of `-`. */
  predicate Trimmed(t: string) { Strip(t) == t && '-' !in t }

  predicate WellFormedItem(item: Item) {
    && |item.size| > 0 && AllWord(item.size) && Trimmed(item.size)
    && Trimmed(item.itemName)
    && (item.variant.Some? ==> Trimmed(item.variant.value))
    && item.price >= 0.0
  }

  lemma StrippedName(t: string)
    requires AllName(t)
    ensures Trimmed(Strip(t))
  {
    StripStrip(t);
    StripKeeps(t);
    NoHyphenIn(t);
  }

  /** `float()` of a matched price is the numeral it spells: no whitespace, no sign. */
  lemma PriceFloat(t: string)
    requires |t| > 0 && AllPrice(t)
    ensures PyFloat(t) == ParseNumeral(t)
  {
    assert !IsSpace(t[0]) && !IsSpace(t[|t| - 1]);
    StripUnpadded(t);
  }

  /** An item gets a variant string exactly when its segment matched the pattern with a
      variant; the variant is then that pattern's group. */
  lemma VariantFromFirstPattern(segment: string)
    requires ParseSegment(segment).Parsed?
    ensures var item := ParseSegment(segment).item;
      && (item.variant.Some? <==> MatchWithVariant(Strip(segment)).Some?)
      && (item.variant.Some? ==> item.variant == MatchWithVariant(Strip(segment)).value.variant)
  {
    var s := Strip(segment);
    if MatchWithVariant(s).None? {
      var g := MatchWithoutVariant(s).value;
      var head, gap := WithoutVariantSound(s);
    }
  }

  /** The groups of either pattern, once stripped. */
  predicate WellFormedGroups(g: Groups) {
    && |g.size| > 0 && AllWord(g.size) && Trimmed(g.size)
    && Trimmed(g.itemName)
    && (g.variant.Some? ==> Trimmed(g.variant.value))
    && |g.priceText| > 0 && AllPrice(g.priceText)
  }

  lemma MatchWellFormed(s: string)
    requires MatchSegment(s).Some?
    ensures WellFormedGroups(MatchSegment(s).value)
  {
    var g := MatchSegment(s).value;
    if MatchWithVariant(s).Some? {
      var head, middle, gap := WithVariantSound(s);
      StrippedName(head);
      StrippedName(middle);
    } else {
      var head, gap := WithoutVariantSound(s);
      StrippedName(head);
    }
    assert !IsSpace(g.size[0]) && !IsSpace(g.size[|g.size| - 1]);
    StripUnpadded(g.size);
    NoHyphenIn(g.size);
  }

  /** Every emitted size is a non-empty word, and the size, name and variant are stripped and
      free of `-`; the price is not negative. */
  lemma SegmentWellFormed(segment: string)
    requires ParseSegment(segment).Parsed?
    ensures WellFormedItem(ParseSegment(segment).item)
  {
    MatchWellFormed(Strip(segment));
    PriceFloat(MatchSegment(Strip(segment)).value.priceText);
  }

  lemma {:induction false} CollectWellFormed(segments: seq<string>)
    ensures forall item | item in Collect(segments) :: WellFormedItem(item)
  {
    if |segments| > 0 {
      CollectWellFormed(segments[1..]);
      if ParseSegment(segments[0]).Parsed? {
        SegmentWellFormed(segments[0]);
      }
    }
  }

  /** At most one item per segment. */
  lemma {:induction false} CollectLength(segments: seq<string>)
    ensures |Collect(segments)| <= |Kept(segments)| <= |segments|
  {
    if |segments| > 0 {
      CollectLength(segments[1..]);
    }
  }

  /** Up to the first refused price the result is the items of the segments before it, in
      order: a segment that matches neither pattern is skipped, and everything from the
      refused price on is lost. With no refused price it is the items of all segments. */
  lemma {:induction false} CollectUpToBadPrice(segments: seq<string>, p: nat)
    requires p <= |segments|
    requires forall i :: 0 <= i < p ==> ParseSegment(segments[i]) != BadPrice
    requires p == |segments| || ParseSegment(segments[p]) == BadPrice
    ensures Collect(segments) == Kept(segments[..p])
  {
    if p == 0 {
      if |segments| > 0 {
        assert ParseSegment(segments[0]) == BadPrice;
      }
    } else {
      assert segments[..p][1..] == segments[1..][..p - 1];
      CollectUpToBadPrice(segments[1..], p - 1);
    }
  }

  /** The reference distributes over the segments. */
  lemma {:induction false} KeptAppend(a: seq<string>, b: seq<string>)
    ensures Kept(a + b) == Kept(a) + Kept(b)
  {
    if |a| > 0 {
      assert (a + b)[1..] == a[1..] + b;
      KeptAppend(a[1..], b);
    } else {
      assert a + b == b;
    }
  }

  // ---------------------------------------------------------------- examples

  /** A field with neither a comma nor a hyphen yields no item. */
  lemma NoSeparators(column: string)
    requires ',' !in column && '-' !in column
    ensures ParsedItems(column) == []
  {
    SplitOnNoSeparator(column, ',');
    StripKeeps(column);
    assert '-' !in Strip(column);
    SplitOnNoSeparator(Strip(column), '-');
    assert MatchSegment(Strip(column)) == None;
    assert ParseSegment(column) == NoMatch;
    assert [column][1..] == [];
  }

  /** A segment in the shape of the pattern with a variant becomes that item, or a refused
      price. */
  lemma SegmentWithVariant(size: string, head: string, middle: string, gap: string, price: string)
    requires |size| > 0 && AllWord(size) && Padded(head) && Padded(middle)
    requires |gap| > 0 && AllSpace(gap) && |price| > 0 && AllPrice(price)
    ensures ParseSegment(size + head + "-" + middle + "-" + gap + price)
         == match ParseNumeral(price)
            case None => BadPrice
            case Some(x) => Parsed(Item(Strip(head), Some(Strip(middle)), size, x))
  {
    var s := size + head + "-" + middle + "-" + gap + price;
    assert s[0] == size[0] && s[|s| - 1] == price[|price| - 1];
    StripUnpadded(s);
    WithVariantComplete(size, head, middle, gap, price);
    PriceFloat(price);
  }

  /** A segment in the shape of the pattern without a variant becomes that item, or a refused
      price. */
  lemma SegmentWithoutVariant(size: string, head: string, gap: string, price: string)
    requires |size| > 0 && AllWord(size) && Padded(head)
    requires |gap| > 0 && AllSpace(gap) && |price| > 0 && AllPrice(price)
    ensures ParseSegment(size + head + "-" + gap + price)
         == match ParseNumeral(price)
            case None => BadPrice
            case Some(x) => Parsed(Item(Strip(head), None, size, x))
  {
    var s := size + head + "-" + gap + price;
    assert s[0] == size[0] && s[|s| - 1] == price[|price| - 1];
    StripUnpadded(s);
    WithoutVariantComplete(size, head, gap, price);
    PiecesWithoutVariant(size, head, gap, price);
    PriceFloat(price);
  }

  /** A name of whitespace only is accepted by `[a-zA-Z\s]+` and stripped to the empty
      text, so an emitted name can be empty. */
  lemma BlankNameAccepted(size: string, head: string, gap: string, price: string)
    requires |size| > 0 && AllWord(size) && |head| >= 3 && AllSpace(head)
    requires |gap| > 0 && AllSpace(gap) && |price| > 0 && AllPrice(price)
    requires ParseNumeral(price).Some?
    ensures ParseSegment(size + head + "-" + gap + price) == Parsed(Item("", None, size, ParseNumeral(price).value))
  {
    assert Padded(head);
    SegmentWithoutVariant(size, head, gap, price);
    TrimOfSpace(head);
  }

  /** Two hyphens with no padded variant between them match neither pattern. */
  lemma MissingVariantSkipped(size: string, head: string, middle: string, gap: string, price: string)
    requires |size| > 0 && AllWord(size) && Padded(head) && AllSpace(middle) && !Padded(middle)
    requires |gap| > 0 && AllSpace(gap) && |price| > 0 && AllPrice(price)
    ensures ParseSegment(size + head + "-" + middle + "-" + gap + price) == NoMatch
  {
    var s := size + head + "-" + middle + "-" + gap + price;
    assert s[0] == size[0] && s[|s| - 1] == price[|price| - 1];
    StripUnpadded(s);
    NoHyphenIn(size); NoHyphenIn(head); NoHyphenIn(middle); NoHyphenIn(gap); NoHyphenIn(price);
    assert s == (size + head) + ['-'] + (middle + ['-'] + (gap + price));
    SplitOnCut(size + head, middle + ['-'] + (gap + price), '-');
    SplitOnCut(middle, gap + price, '-');
    SplitOnNoSeparator(gap + price, '-');
    assert SplitOn(s, '-') == [size + head, middle, gap + price];
  }
}
