/**
 * The bot's two fixed regular expressions, as hand-written matchers that give
 * the same answer as Python's leftmost, backtracking `re.search`:
 *
 *   invoice:  P-([A-Z0-9]+)
 *   price:    (\d{1,3}(?:,\d{3})*(?:\.\d+)?)\s*៛
 *
 * Each matcher comes with a declarative description of the strings its
 * pattern accepts, and a lemma that the two agree.
 */
module Patterns {
  import opened Wrappers
  import opened Text

  /** The Khmer riel sign U+17DB, the currency glyph the price must end with. */
  const RielSign: char := '\U{17DB}'

  // ---------------------------------------------------------------- invoice

  /** The invoice pattern matches at `i`: `P-` followed by at least one `[A-Z0-9]`. */
  predicate InvoiceMatchAt(s: string, i: nat) {
    i + 2 < |s| && s[i] == 'P' && s[i + 1] == '-' && IsInvoiceChar(s[i + 2])
  }

  /**
   * `v` is the capture group of the leftmost invoice match, which starts at `i`:
   * no match starts earlier, `v` follows the `P-` and is the greedy, hence
   * maximal, run of `[A-Z0-9]` there.
   */
  ghost predicate IsInvoiceCapture(s: string, i: nat, v: string) {
    && InvoiceMatchAt(s, i)
    && (forall k: nat :: k < i ==> !InvoiceMatchAt(s, k))
    && i + 2 + |v| <= |s|
    && s[i + 2..i + 2 + |v|] == v
    && All(v, IsInvoiceChar)
    && (i + 2 + |v| == |s| || !IsInvoiceChar(s[i + 2 + |v|]))
  }

  /** The leftmost start of an invoice match at or after `i`: the order in which `search` tries starts. */
  function FirstInvoiceMatch(s: string, i: nat): (r: Option<nat>)
    requires i <= |s|
    ensures r.Some? ==> i <= r.value < |s| && InvoiceMatchAt(s, r.value)
    ensures r.Some? ==> forall k: nat :: i <= k < r.value ==> !InvoiceMatchAt(s, k)
    ensures r.None? ==> forall k: nat :: i <= k ==> !InvoiceMatchAt(s, k)
    decreases |s| - i
  {
    if i == |s| then None
    else if InvoiceMatchAt(s, i) then Some(i)
    else FirstInvoiceMatch(s, i + 1)
  }

  /** There is only one leftmost invoice capture. */
  lemma InvoiceCaptureUnique(s: string, i: nat, v: string, j: nat, w: string)
    requires IsInvoiceCapture(s, i, v) && IsInvoiceCapture(s, j, w)
    ensures i == j && v == w
  {
    assert InvoiceMatchAt(s, i) && InvoiceMatchAt(s, j);
    assert i == j;
    RunEndExact(s, i + 2, i + 2 + |v|, IsInvoiceChar);
    RunEndExact(s, i + 2, i + 2 + |w|, IsInvoiceChar);
  }

  /** `INVOICE_PATTERN.search(s)` followed by `.group(1)`; `None` when there is no match. */
  function SearchInvoice(s: string): (r: Option<string>)
    ensures r.None? <==> forall i: nat :: !InvoiceMatchAt(s, i)
    ensures r.Some? ==> exists i: nat :: IsInvoiceCapture(s, i, r.value)
    ensures r.Some? ==> |r.value| >= 1 && All(r.value, IsInvoiceChar)
  {
    match FirstInvoiceMatch(s, 0)
    case None => None
    case Some(i) =>
      var e := RunEnd(s, i + 2, IsInvoiceChar);
      assert IsInvoiceCapture(s, i, s[i + 2..e]);
      Some(s[i + 2..e])
  }

  // ------------------------------------------------------------------ price

  /** A `,\d{3}` group starts at `p`. */
  predicate CommaGroupAt(s: string, p: nat) {
    p + 4 <= |s| && s[p] == ',' && IsDigit(s[p + 1]) && IsDigit(s[p + 2]) && IsDigit(s[p + 3])
  }

  /** `s[p..q]` is in the language of `(?:,\d{3})*`. */
  predicate CommaGroupsSpan(s: string, p: nat, q: nat)
    decreases q - p
  {
    p == q || (p + 4 <= q && CommaGroupAt(s, p) && CommaGroupsSpan(s, p + 4, q))
  }

  /** `s[q..e]` is in the language of `(?:\.\d+)?`. */
  predicate FractionSpan(s: string, q: nat, e: nat) {
    q == e || (q + 2 <= e <= |s| && s[q] == '.' && All(s[q + 1..e], IsDigit))
  }

  /**
   * `s[i..e]` splits into the three parts of the capture group
   * `\d{1,3}(?:,\d{3})*(?:\.\d+)?`: one to three digits up to `d`, comma
   * groups up to `q`, an optional fraction up to `e`.
   */
  predicate PriceGroupSplit(s: string, i: nat, d: nat, q: nat, e: nat) {
    && i < d <= i + 3 && d <= q <= e <= |s|
    && All(s[i..d], IsDigit)
    && CommaGroupsSpan(s, d, q)
    && FractionSpan(s, q, e)
  }

  /** `\s*៛` matches at `e` (greedy `\s*` never needs to give back: `៛` is not a space). */
  predicate TailAt(s: string, e: nat)
    requires e <= |s|
  {
    var w := RunEnd(s, e, IsSpace);
    w < |s| && s[w] == RielSign
  }

  /** The price pattern matches at `i` with its capture group `s[i..e]`. */
  ghost predicate IsPriceMatch(s: string, i: nat, e: nat) {
    && e <= |s|
    && (exists d: nat, q: nat :: PriceGroupSplit(s, i, d, q, e))
    && TailAt(s, e)
  }

  /** No price match starts before `i`, and one starts at `i` with its group ending at `e`. */
  ghost predicate IsLeftmostPriceMatch(s: string, i: nat, e: nat) {
    IsPriceMatch(s, i, e) && forall k: nat, e': nat :: k < i ==> !IsPriceMatch(s, k, e')
  }

  /** What greedy `(?:,\d{3})*` consumes from `p`. */
  function CommaGroupsEnd(s: string, p: nat): (q: nat)
    requires p <= |s|
    ensures p <= q <= |s|
    ensures CommaGroupsSpan(s, p, q)
    ensures !CommaGroupAt(s, q)
    decreases |s| - p
  {
    if CommaGroupAt(s, p) then CommaGroupsEnd(s, p + 4) else p
  }

  /**
   * The end of the capture group of a price match starting at `i`, or `None`.
   * Backtracking can only succeed on the greedy choice at every step: giving
   * back a leading digit, a comma group or a fraction digit leaves a digit, a
   * comma or a digit in front of `\s*៛`. So more than three leading digits
   * mean no match at `i` (on "1234 ៛" the match starts one digit later).
   */
  function PriceGroupEnd(s: string, i: nat): (r: Option<nat>)
    requires i <= |s|
    ensures r.Some? ==> i < r.value <= |s|
  {
    var d := RunEnd(s, i, IsDigit);
    if d == i || d - i > 3 then None
    else
      var q := CommaGroupsEnd(s, d);
      if q + 1 < |s| && s[q] == '.' && IsDigit(s[q + 1]) then
        var f := RunEnd(s, q + 1, IsDigit);
        if TailAt(s, f) then Some(f) else None
      else if TailAt(s, q) then Some(q) else None
  }

  /** The leftmost start at or after `i` at which `PriceGroupEnd` finds a match. */
  function FirstPriceMatch(s: string, i: nat): (r: Option<nat>)
    requires i <= |s|
    ensures r.Some? ==> i <= r.value < |s| && PriceGroupEnd(s, r.value).Some?
    ensures r.Some? ==> forall k: nat :: i <= k < r.value ==> PriceGroupEnd(s, k).None?
    ensures r.None? ==> forall k: nat :: i <= k <= |s| ==> PriceGroupEnd(s, k).None?
    decreases |s| - i
  {
    if i == |s| then None
    else if PriceGroupEnd(s, i).Some? then Some(i)
    else FirstPriceMatch(s, i + 1)
  }

  /** `COST_PRICE_PATTERN.search(s)` followed by `.group(1)`; `None` when there is no match. */
  function SearchPrice(s: string): (r: Option<string>)
  {
    match FirstPriceMatch(s, 0)
    case None => None
    case Some(i) => Some(s[i..PriceGroupEnd(s, i).value])
  }

  /** A `\s*៛` tail starts with a space or the riel sign: never a digit, comma or point. */
  lemma TailStart(s: string, e: nat)
    requires e <= |s| && TailAt(s, e)
    ensures e < |s| && (IsSpace(s[e]) || s[e] == RielSign)
  {
  }

  /** Comma groups that are not followed by another group are the ones greedy matching takes. */
  lemma {:induction false} CommaGroupsEndExact(s: string, p: nat, q: nat)
    requires p <= q <= |s|
    requires CommaGroupsSpan(s, p, q) && !CommaGroupAt(s, q)
    ensures CommaGroupsEnd(s, p) == q
    decreases q - p
  {
    if p < q {
      CommaGroupsEndExact(s, p + 4, q);
    }
  }

  /** Every regex match at `i` is the one `PriceGroupEnd` computes. */
  lemma PriceGroupEndComplete(s: string, i: nat, e: nat)
    requires IsPriceMatch(s, i, e)
    ensures PriceGroupEnd(s, i) == Some(e)
  {
    var d: nat, q: nat :| PriceGroupSplit(s, i, d, q, e);
    PriceGroupEndOfSplit(s, i, d, q, e);
  }

  /** A split of the capture group followed by `\s*៛` is what the greedy matcher finds. */
  lemma PriceGroupEndOfSplit(s: string, i: nat, d: nat, q: nat, e: nat)
    requires PriceGroupSplit(s, i, d, q, e) && TailAt(s, e)
    ensures PriceGroupEnd(s, i) == Some(e)
  {
    TailStart(s, e);
    PriceGroupStops(s, i, d, q, e);
    if q < e {
      assert PriceGroupEnd(s, i) == (if TailAt(s, e) then Some(e) else None);
    } else {
      assert s[q] != '.';
    }
  }

  /**
   * A capture group followed by a character that is neither a digit, a comma
   * nor a point is where each greedy part of the pattern stops.
   */
  lemma PriceGroupStops(s: string, i: nat, d: nat, q: nat, e: nat)
    requires PriceGroupSplit(s, i, d, q, e)
    requires e < |s| && !IsDigit(s[e]) && s[e] != ',' && s[e] != '.'
    ensures RunEnd(s, i, IsDigit) == d
    ensures CommaGroupsEnd(s, d) == q
    ensures q < e ==> q + 1 < |s| && s[q] == '.' && IsDigit(s[q + 1]) && RunEnd(s, q + 1, IsDigit) == e
  {
    if d < q {
      assert CommaGroupAt(s, d);
    } else if q < e {
      assert s[d] == '.';
    }
    RunEndExact(s, i, d, IsDigit);
    if q < e {
      assert s[q] == '.';
      assert s[q + 1..e][0] == s[q + 1];
      RunEndExact(s, q + 1, e, IsDigit);
    }
    CommaGroupsEndExact(s, d, q);
  }

  /** Whatever `PriceGroupEnd` computes is a regex match. */
  lemma PriceGroupEndSound(s: string, i: nat)
    requires i <= |s| && PriceGroupEnd(s, i).Some?
    ensures IsPriceMatch(s, i, PriceGroupEnd(s, i).value)
  {
    var d := RunEnd(s, i, IsDigit);
    var q := CommaGroupsEnd(s, d);
    var e := PriceGroupEnd(s, i).value;
    assert PriceGroupSplit(s, i, d, q, e);
  }

  /**
   * The deterministic matcher and the regex agree: a capture group from `i`
   * to `e` followed by `\s*៛` exists exactly when `PriceGroupEnd` returns `e`.
   * In particular at most one group end works for a given start.
   */
  lemma PriceGroupEndCorrect(s: string, i: nat, e: nat)
    ensures IsPriceMatch(s, i, e) <==> i <= |s| && PriceGroupEnd(s, i) == Some(e)
  {
    if IsPriceMatch(s, i, e) {
      PriceGroupEndComplete(s, i, e);
    }
    if i <= |s| && PriceGroupEnd(s, i) == Some(e) {
      PriceGroupEndSound(s, i);
    }
  }

  /**
   * `SearchPrice` finds the leftmost match of the price pattern and returns
   * its capture group; it finds nothing exactly when the pattern occurs nowhere.
   */
  lemma SearchPriceIsLeftmostMatch(s: string)
    ensures SearchPrice(s).None? <==> forall i: nat, e: nat :: !IsPriceMatch(s, i, e)
    ensures SearchPrice(s).Some? ==>
      exists i: nat, e: nat :: IsLeftmostPriceMatch(s, i, e) && SearchPrice(s).value == s[i..e]
  {
    var r := FirstPriceMatch(s, 0);
    forall k: nat, e: nat | r.None? || k < r.value
      ensures !IsPriceMatch(s, k, e)
    {
      if k <= |s| {
        PriceGroupEndCorrect(s, k, e);
      }
    }
    if r.Some? {
      var i := r.value;
      var e := PriceGroupEnd(s, i).value;
      PriceGroupEndCorrect(s, i, e);
      assert IsLeftmostPriceMatch(s, i, e);
    }
  }
}
