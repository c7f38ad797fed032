/**
  Data shapes shared by the order, inventory and notification services, and the
  total, case-insensitive parse of a product category.
 */
module CommonModel {

  /** A value that may be absent (Java's null). */
  datatype Option<+T> = None | Some(value: T)

  /** Either a value or an error. */
  datatype Result<+T, +E> = Success(value: T) | Failure(error: E)

  /** Where an order stands in the pipeline. */
  datatype InventoryStatus = PENDING | APPROVED | REJECTED

  /** Why an item of an order was refused. */
  datatype InventoryCheckReason =
    UNKNOWN_PRODUCT | UNKNOWN_CATEGORY | INSUFFICIENT_QUANTITY | EXPIRED | EMPTY_ORDER

  datatype Category = STANDARD | PERISHABLE | DIGITAL | UNKNOWN

  datatype OrderItem = OrderItem(category: Category, productId: string, quantity: int)

  datatype OrderEvent = OrderEvent(
    orderId: string,
    customerName: string,
    items: seq<OrderItem>,
    status: InventoryStatus)

  datatype InventoryIssue = InventoryIssue(productId: string, reason: InventoryCheckReason)

  datatype InventoryCheckResultEvent = InventoryCheckResultEvent(
    orderId: string,
    status: InventoryStatus,
    issues: seq<InventoryIssue>)

  // ---------------------------------------------------------------------------
  // Category: wire values and parsing
  // ---------------------------------------------------------------------------

  /** The enum constants in declaration order, as `values()` gives them. */
  const VALUES: seq<Category> := [STANDARD, PERISHABLE, DIGITAL, UNKNOWN]

  /** The wire value of a category. */
  function GetValue(c: Category): string
  {
    match c
    case STANDARD => "standard"
    case PERISHABLE => "perishable"
    case DIGITAL => "digital"
    case UNKNOWN => "unknown"
  }

  predicate IsLowerAscii(s: string)
  {
    forall i :: 0 <= i < |s| ==> 'a' <= s[i] <= 'z'
  }

  /**
    The character a case-insensitive comparison against a lower-case ASCII
    letter sees: ASCII upper case goes to lower case, and the four non-ASCII
    characters that Java's case-insensitive string comparison equates with an
    ASCII letter (capital I with dot, dotless i, long s, Kelvin sign) go to that
    letter. Every other character is left alone.
   */
  function FoldCase(c: char): char
  {
    if 'A' <= c <= 'Z' then (c as int + 32) as char
    else if c == '\U{0130}' || c == '\U{0131}' then 'i'
    else if c == '\U{017F}' then 's'
    else if c == '\U{212A}' then 'k'
    else c
  }

  /** Two strings that a case-insensitive comparison cannot tell apart. */
  predicate SameIgnoringCase(s: string, t: string)
  {
    |s| == |t| && forall i :: 0 <= i < |s| ==> FoldCase(s[i]) == FoldCase(t[i])
  }

  /**
    `value.equalsIgnoreCase(v)` for a lower-case ASCII `value`, which every
    category wire value is (see ValuesAreLowerAndDistinct).
   */
  predicate MatchesValue(value: string, v: string)
  {
    SameIgnoringCase(value, v)
  }

  /** The first of `cs` whose wire value matches `v`, or UNKNOWN when none does. */
  function FirstMatch(cs: seq<Category>, v: string): (r: Category)
    ensures r == UNKNOWN || (r in cs && MatchesValue(GetValue(r), v))
    ensures (exists i :: 0 <= i < |cs| && MatchesValue(GetValue(cs[i]), v)) ==> MatchesValue(GetValue(r), v)
  {
    if cs == [] then UNKNOWN
    else if MatchesValue(GetValue(cs[0]), v) then cs[0]
    else FirstMatch(cs[1..], v)
  }

  /** `Category.from`: total; null and every unmatched string give UNKNOWN. */
  function From(v: Option<string>): (r: Category)
    ensures v.None? ==> r == UNKNOWN
    ensures v.Some? && r != UNKNOWN ==> MatchesValue(GetValue(r), v.value)
    ensures v.Some? && (exists c :: MatchesValue(GetValue(c), v.value)) ==> MatchesValue(GetValue(r), v.value)
  {
    match v
    case None => UNKNOWN
    case Some(s) =>
      FirstMatchOverValues(s);
      FirstMatch(VALUES, s)
  }

  /** Searching all the values finds a match whenever some category matches. */
  lemma FirstMatchOverValues(s: string)
    ensures (exists c :: MatchesValue(GetValue(c), s)) ==> MatchesValue(GetValue(FirstMatch(VALUES, s)), s)
  {
    if c :| MatchesValue(GetValue(c), s) {
      assert VALUES[CategoryIndex(c)] == c;
    }
  }

  /** The position of a category in VALUES. */
  function CategoryIndex(c: Category): (i: nat)
    ensures i < |VALUES| && VALUES[i] == c
  {
    match c
    case STANDARD => 0
    case PERISHABLE => 1
    case DIGITAL => 2
    case UNKNOWN => 3
  }

  /** The four wire values are lower-case and no string matches two of them. */
  lemma ValuesAreLowerAndDistinct(c: Category, d: Category, s: string)
    ensures IsLowerAscii(GetValue(c))
    ensures c != d ==> GetValue(c) != GetValue(d)
    ensures MatchesValue(GetValue(c), s) && MatchesValue(GetValue(d), s) ==> c == d
  {
  }

  /** Round trip: parsing a category's wire value gives the category back. */
  lemma FromGetValue(c: Category)
    ensures From(Some(GetValue(c))) == c
  {
    var r := From(Some(GetValue(c)));
    assert MatchesValue(GetValue(c), GetValue(c));
    ValuesAreLowerAndDistinct(r, c, GetValue(c));
  }

  /** A string that matches no wire value, such as "other", parses to UNKNOWN. */
  lemma FromUnmatched(s: string)
    requires forall c :: !MatchesValue(GetValue(c), s)
    ensures From(Some(s)) == UNKNOWN
  {
  }

  lemma FromOther()
    ensures From(Some("other")) == UNKNOWN
  {
  }

  lemma {:induction false} FirstMatchIgnoresCase(cs: seq<Category>, s: string, t: string)
    requires SameIgnoringCase(s, t)
    ensures FirstMatch(cs, s) == FirstMatch(cs, t)
  {
    if cs != [] {
      var w := GetValue(cs[0]);
      assert MatchesValue(w, s) <==> MatchesValue(w, t);
      FirstMatchIgnoresCase(cs[1..], s, t);
    }
  }

  /** Parsing ignores case: strings that differ only in letter case parse alike. */
  lemma FromIgnoresCase(s: string, t: string)
    requires SameIgnoringCase(s, t)
    ensures From(Some(s)) == From(Some(t))
  {
    FirstMatchIgnoresCase(VALUES, s, t);
  }

  /** ASCII upper-casing of a string. */
  function UpperAscii(s: string): (r: string)
    ensures |r| == |s|
    ensures forall i :: 0 <= i < |s| ==> r[i] == if 'a' <= s[i] <= 'z' then (s[i] as int - 32) as char else s[i]
  {
    if s == [] then []
    else [if 'a' <= s[0] <= 'z' then (s[0] as int - 32) as char else s[0]] + UpperAscii(s[1..])
  }

  /** "STANDARD", "Standard" and "standard" all parse alike. */
  lemma FromUpperAscii(s: string)
    ensures From(Some(UpperAscii(s))) == From(Some(s))
  {
    var u := UpperAscii(s);
    assert SameIgnoringCase(u, s);
    FromIgnoresCase(u, s);
  }
}
