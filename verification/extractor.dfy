/**
 * The extraction half of the notification handler: from the inbound message
 * text and its two timestamps, the three labelled values that are sent back,
 * in the order date, invoice number, cost price.
 */
module Extractor {
  import opened Wrappers
  import opened Text
  import opened Patterns
  import opened Timestamps

  /** The value shown when a pattern does not occur. */
  const Sentinel := "Pattern not found."

  const MetadataLabel := "Original Message Date (Metadata)"
  const FallbackLabel := "Original Message Date (Fallback)"
  const InvoiceLabel := "Invoice Number"
  const CostLabel := "Cost Price"

  /**
   * An inbound text message: its text, the time it was received and, when the
   * platform kept the forwarding provenance, the time of the original message.
   */
  datatype Notification = Notification(text: string, date: Timestamp, forwardDate: Option<Timestamp>)

  predicate ValidNotification(n: Notification) {
    Valid(n.date) && (n.forwardDate.Some? ==> Valid(n.forwardDate.value))
  }

  /** A title (the label shown in bold) and the value to be copied. */
  datatype Field = Field(title: string, value: string)

  // ----------------------------------------------------------- price value

  /** `s.replace(',', '')`. */
  function StripCommas(s: string): (r: string)
    ensures |r| <= |s|
  {
    if s == [] then []
    else (if s[0] == ',' then [] else [s[0]]) + StripCommas(s[1..])
  }

  /** Removing commas works piecewise, so the remaining characters keep their order. */
  lemma {:induction false} StripCommasAppend(a: string, b: string)
    ensures StripCommas(a + b) == StripCommas(a) + StripCommas(b)
  {
    if a == [] {
      assert a + b == b;
    } else {
      var ab := a + b;
      assert ab[0] == a[0];
      assert ab[1..] == a[1..] + b;
      StripCommasAppend(a[1..], b);
      var h := if a[0] == ',' then [] else [a[0]];
      assert StripCommas(ab) == h + StripCommas(a[1..] + b);
      assert StripCommas(a) == h + StripCommas(a[1..]);
    }
  }

  /** No comma survives. */
  lemma {:induction false} StripCommasNoComma(s: string)
    ensures ',' !in StripCommas(s)
  {
    if s != [] {
      StripCommasNoComma(s[1..]);
    }
  }

  /** A string without commas is left as it is. */
  lemma {:induction false} StripCommasCommaFree(s: string)
    requires ',' !in s
    ensures StripCommas(s) == s
  {
    if s != [] {
      StripCommasCommaFree(s[1..]);
    }
  }

  lemma LoneCommaStripped()
    ensures StripCommas([',']) == []
  {
    assert [','][1..] == [];
  }

  /** A single comma between two comma-free parts is all that is removed. */
  lemma StripCommasOneComma(a: string, b: string)
    requires ',' !in a && ',' !in b
    ensures StripCommas(a + [','] + b) == a + b
  {
    LoneCommaStripped();
    StripCommasAppend(a, [',']);
    StripCommasCommaFree(a);
    assert StripCommas(a + [',']) == a;
    StripCommasAppend(a + [','], b);
    StripCommasCommaFree(b);
  }

  /** Comma groups lose their commas and keep their digits. */
  lemma {:induction false} CommaGroupsStrip(s: string, p: nat, q: nat)
    requires p <= q <= |s| && CommaGroupsSpan(s, p, q)
    ensures All(StripCommas(s[p..q]), IsDigit)
    decreases q - p
  {
    if p < q {
      assert s[p..q] == s[p..p + 4] + s[p + 4..q];
      StripCommasAppend(s[p..p + 4], s[p + 4..q]);
      assert s[p..p + 4][1..] == s[p + 1..p + 4];
      StripCommasCommaFree(s[p + 1..p + 4]);
      CommaGroupsStrip(s, p + 4, q);
    }
  }

  /** `v` is digits with an optional fraction: what a price becomes once its commas are gone. */
  ghost predicate IsPlainDecimal(v: string) {
    exists j: nat | 1 <= j <= |v| :: All(v[..j], IsDigit) && FractionSpan(v, j, |v|)
  }

  /** A plain decimal starts with a digit and holds only digits and at most one point. */
  lemma PlainDecimalShape(v: string)
    requires IsPlainDecimal(v)
    ensures |v| >= 1 && IsDigit(v[0])
    ensures forall k :: 0 <= k < |v| ==> IsDigit(v[k]) || v[k] == '.'
    ensures forall a, b :: 0 <= a < b < |v| && v[a] == '.' ==> v[b] != '.'
  {
    var j: nat :| 1 <= j <= |v| && All(v[..j], IsDigit) && FractionSpan(v, j, |v|);
    assert v[..j][0] == v[0];
    forall k | 0 <= k < |v|
      ensures IsDigit(v[k]) || (k == j && v[k] == '.')
    {
      if k < j {
        assert v[..j][k] == v[k];
      } else if k > j {
        assert v[j + 1..][k - j - 1] == v[k];
      }
    }
  }

  /** Digits, then more digits, then an optional fraction make a plain decimal. */
  lemma PlainDecimalIntro(a: string, b: string, c: string)
    requires |a| >= 1 && All(a, IsDigit) && All(b, IsDigit)
    requires c == [] || (|c| >= 2 && c[0] == '.' && All(c[1..], IsDigit))
    ensures IsPlainDecimal(a + b + c)
  {
    var v := a + b + c;
    var j := |a| + |b|;
    assert v[..j] == a + b;
    if c != [] {
      assert v[j] == c[0];
      assert v[j + 1..] == c[1..];
    }
    assert All(v[..j], IsDigit) && FractionSpan(v, j, |v|);
  }

  /** Stripping a capture group only touches its comma groups. */
  lemma StripPriceGroup(s: string, i: nat, d: nat, q: nat, e: nat)
    requires PriceGroupSplit(s, i, d, q, e)
    ensures StripCommas(s[i..e]) == s[i..d] + StripCommas(s[d..q]) + s[q..e]
  {
    assert s[i..e] == s[i..d] + s[d..q] + s[q..e];
    StripCommasAppend(s[i..d] + s[d..q], s[q..e]);
    StripCommasAppend(s[i..d], s[d..q]);
    assert forall k :: 0 <= k < d - i ==> s[i..d][k] == s[i + k];
    StripCommasCommaFree(s[i..d]);
    if q < e {
      assert forall k :: 0 < k < e - q ==> s[q..e][k] == s[q + 1..e][k - 1];
      assert s[q..e][0] == '.';
    }
    StripCommasCommaFree(s[q..e]);
  }

  /** The capture group of a price match, stripped of commas, is a plain decimal. */
  lemma PriceMatchValue(s: string, i: nat, e: nat)
    requires IsPriceMatch(s, i, e)
    ensures IsPlainDecimal(StripCommas(s[i..e]))
  {
    var d: nat, q: nat :| PriceGroupSplit(s, i, d, q, e);
    StripPriceGroup(s, i, d, q, e);
    CommaGroupsStrip(s, d, q);
    if q < e {
      assert s[q..e][0] == s[q];
      assert s[q..e][1..] == s[q + 1..e];
    }
    PlainDecimalIntro(s[i..d], StripCommas(s[d..q]), s[q..e]);
  }

  /** When `SearchPrice` finds a group, stripping its commas leaves a plain decimal. */
  lemma SearchPriceValue(s: string)
    ensures SearchPrice(s).Some? ==> IsPlainDecimal(StripCommas(SearchPrice(s).value))
  {
    var r := FirstPriceMatch(s, 0);
    if r.Some? {
      PriceGroupEndSound(s, r.value);
      PriceMatchValue(s, r.value, PriceGroupEnd(s, r.value).value);
    }
  }

  // ---------------------------------------------------------------- fields

  /** The timestamp the date field shows: the forwarded origin time when present, else the received time. */
  function OriginTime(n: Notification): Timestamp {
    if n.forwardDate.Some? then n.forwardDate.value else n.date
  }

  /**
   * The date field: the forwarded origin time when the platform kept it,
   * labelled "(Metadata)", otherwise the received time, labelled "(Fallback)".
   * The value is the formatted time, from which the time can be read back.
   */
  function DateField(n: Notification): (f: Field)
    requires ValidNotification(n)
    ensures f.title == MetadataLabel <==> n.forwardDate.Some?
    ensures f.title == FallbackLabel <==> n.forwardDate.None?
    ensures IsDateTimeText(f.value) && f.value != Sentinel
    ensures Parse(f.value) == OriginTime(n)
  {
    assert MetadataLabel[22..] != FallbackLabel[22..];
    var t := OriginTime(n);
    ParseFormat(t);
    Field(if n.forwardDate.Some? then MetadataLabel else FallbackLabel, Format(t))
  }

  /**
   * The invoice field: the `[A-Z0-9]+` run after the leftmost `P-`, or the
   * sentinel when the text has no invoice token.
   */
  function InvoiceField(text: string): (f: Field)
    ensures f.title == InvoiceLabel
    ensures f.value == Sentinel <==> forall i: nat :: !InvoiceMatchAt(text, i)
    ensures f.value != Sentinel ==> |f.value| >= 1 && All(f.value, IsInvoiceChar)
    ensures f.value != Sentinel ==> exists i: nat :: IsInvoiceCapture(text, i, f.value)
  {
    match SearchInvoice(text)
    case Some(v) =>
      assert !IsInvoiceChar(Sentinel[1]);
      Field(InvoiceLabel, v)
    case None => Field(InvoiceLabel, Sentinel)
  }

  /** The leftmost invoice capture is unique, so it is the value of the invoice field. */
  lemma InvoiceFieldOfCapture(text: string, i: nat, v: string)
    requires IsInvoiceCapture(text, i, v)
    ensures InvoiceField(text).value == v
  {
    var w := InvoiceField(text).value;
    assert w != Sentinel;
    var j: nat :| IsInvoiceCapture(text, j, w);
    InvoiceCaptureUnique(text, i, v, j, w);
  }

  /**
   * The cost-price field: the leftmost price group, commas removed, or the
   * sentinel when the text has no riel amount.
   */
  function PriceField(text: string): (f: Field)
    ensures f.title == CostLabel
    ensures f.value == Sentinel <==> forall i: nat, e: nat :: !IsPriceMatch(text, i, e)
    ensures f.value != Sentinel ==> IsPlainDecimal(f.value)
    ensures f.value != Sentinel ==>
      exists i: nat, e: nat :: IsLeftmostPriceMatch(text, i, e) && f.value == StripCommas(text[i..e])
  {
    SearchPriceIsLeftmostMatch(text);
    match SearchPrice(text)
    case Some(g) =>
      SearchPriceValue(text);
      PlainDecimalShape(StripCommas(g));
      Field(CostLabel, StripCommas(g))
    case None => Field(CostLabel, Sentinel)
  }

  /** The three fields, in the order in which they are sent. */
  function Extract(n: Notification): (fs: seq<Field>)
    requires ValidNotification(n)
    ensures |fs| == 3
    ensures fs[0].title in {MetadataLabel, FallbackLabel} && fs[0].value != Sentinel
    ensures fs[1].title == InvoiceLabel && fs[2].title == CostLabel
    ensures forall k :: 0 <= k < 3 ==> fs[k].value != [] && '`' !in fs[k].value
  {
    var fs := [DateField(n), InvoiceField(n.text), PriceField(n.text)];
    FieldValuesAreCodeSafe(n);
    fs
  }

  lemma SentinelIsCodeSafe()
    ensures '`' !in Sentinel
  {
  }

  /** No value is empty or contains a backtick, so each renders as one code span. */
  lemma FieldValuesAreCodeSafe(n: Notification)
    requires ValidNotification(n)
    ensures DateField(n).value != [] && '`' !in DateField(n).value
    ensures InvoiceField(n.text).value != [] && '`' !in InvoiceField(n.text).value
    ensures PriceField(n.text).value != [] && '`' !in PriceField(n.text).value
  {
    DateTimeTextIsCodeSafe(DateField(n).value);
    var w := InvoiceField(n.text).value;
    if w != Sentinel {
      assert !IsInvoiceChar('`');
    } else {
      SentinelIsCodeSafe();
    }
    var v := PriceField(n.text).value;
    if v != Sentinel {
      PlainDecimalShape(v);
    } else {
      SentinelIsCodeSafe();
    }
  }
}
