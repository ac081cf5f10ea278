/**
 * The pure parts of the "Copy Value" button handler: decoding the callback
 * payload, recovering the bold title line from the tapped message, and the
 * two confirmation texts.
 */
module Acknowledger {
  import opened Wrappers
  import opened Extractor
  import opened Presenter

  /** The toast shown to the user who tapped. */
  const AnswerText := "Value is ready to copy!"

  const ConfirmationLine := "\U{2705} **Extracted Value**"

  /**
   * `s.split(sep, 1)`: the whole string when `sep` does not occur, otherwise
   * the parts before and after its first occurrence.
   */
  function SplitOnce(s: string, sep: char): (parts: seq<string>)
    ensures 1 <= |parts| <= 2 && sep !in parts[0]
    ensures |parts| == 1 <==> sep !in s
    ensures |parts| == 1 ==> parts[0] == s
    ensures |parts| == 2 ==> s == parts[0] + [sep] + parts[1]
    decreases |s|
  {
    if s == [] then [s]
    else if s[0] == sep then ["", s[1..]]
    else
      var rest := SplitOnce(s[1..], sep);
      [[s[0]] + rest[0]] + rest[1..]
  }

  /** Joining two parts with `sep` and splitting again gives them back, provided `sep` is not in the first. */
  lemma {:induction false} SplitOnceJoin(a: string, b: string, sep: char)
    requires sep !in a
    ensures SplitOnce(a + [sep] + b, sep) == [a, b]
    decreases |a|
  {
    var s := a + [sep] + b;
    if a == [] {
      assert s[1..] == b;
    } else {
      assert s[1..] == a[1..] + [sep] + b;
      SplitOnceJoin(a[1..], b, sep);
      assert [a[0]] + a[1..] == a;
    }
  }

  /** Every payload decodes to the copy tag and the exact value, even a value containing `|`. */
  lemma PayloadRoundTrip(v: string)
    ensures SplitOnce(Payload(v), '|') == [CopyTag, v]
  {
    assert Payload(v) == CopyTag + ['|'] + v;
    SplitOnceJoin(CopyTag, v, '|');
  }

  // ------------------------------------------------------------- the header

  /** `**` at index `k`. */
  predicate StarsAt(s: string, k: nat) {
    k + 2 <= |s| && s[k] == '*' && s[k + 1] == '*'
  }

  /** No line break in `s[a..b]` (the regex `.` does not match one). */
  predicate NoNewline(s: string, a: nat, b: nat) {
    forall m :: a <= m < b && m < |s| ==> s[m] != '\n'
  }

  /** The anchored pattern `\*\*.*?\*\*` can close at `k`: `**` at 0 and at `k`, no line break between. */
  predicate HeaderCloseAt(s: string, k: nat) {
    StarsAt(s, 0) && 2 <= k && StarsAt(s, k) && NoNewline(s, 2, k)
  }

  /**
   * The first `**` at or after `j` that the lazy `.*?` reaches before a line
   * break, if any.
   */
  function CloseFrom(s: string, j: nat): (r: Option<nat>)
    ensures r.Some? ==> j <= r.value && StarsAt(s, r.value) && NoNewline(s, j, r.value)
    ensures r.Some? ==> forall k :: j <= k < r.value ==> !StarsAt(s, k)
    ensures r.None? ==> forall k: nat :: j <= k && StarsAt(s, k) ==> !NoNewline(s, j, k)
    decreases |s| - j
  {
    if j + 2 > |s| then None
    else if StarsAt(s, j) then Some(j)
    else if s[j] == '\n' then None
    else CloseFrom(s, j + 1)
  }

  /**
   * `re.match(r'(\*\*.*?\*\*)', text)`, group 1, or "" without a match: the
   * shortest bold span at the very start of the text.
   */
  function RecoverHeader(s: string): (h: string)
    ensures h != [] ==> exists k: nat ::
      (HeaderCloseAt(s, k) && h == s[..k + 2] && forall k': nat :: k' < k ==> !HeaderCloseAt(s, k'))
    ensures h == [] <==> forall k: nat :: !HeaderCloseAt(s, k)
  {
    if StarsAt(s, 0) then
      match CloseFrom(s, 2)
      case Some(k) =>
        assert HeaderCloseAt(s, k);
        s[..k + 2]
      case None => ""
    else ""
  }

  /** The edited text: the recovered title line, the value as code, a blank line, the confirmation. */
  function ConfirmedText(header: string, value: string): string {
    header + "\n`" + value + "`\n\n" + ConfirmationLine
  }

  /** The text of the new reply sent when the edit fails. */
  function FallbackText(value: string): string {
    ConfirmationLine + "\n`" + value + "`"
  }

  /** On a rendered reply whose title has no `*` and no line break, the recovered header is its bold title line. */
  lemma HeaderOfBody(title: string, value: string)
    requires '*' !in title && '\n' !in title
    ensures RecoverHeader(Body(title, value)) == "**" + title + ":**"
  {
    var s := Body(title, value);
    var c := |title| + 3;
    assert s[2..2 + |title|] == title;
    forall k: nat | 2 <= k < c
      ensures !StarsAt(s, k) && s[k] != '\n'
    {
      if k < 2 + |title| {
        assert s[k] == title[k - 2];
      }
    }
    assert HeaderCloseAt(s, c);
    var h := RecoverHeader(s);
    var k: nat :| HeaderCloseAt(s, k) && h == s[..k + 2] && forall k': nat :: k' < k ==> !HeaderCloseAt(s, k');
    assert k == c;
  }

  /**
   * Tapping the button of a rendered reply: the payload decodes to the copy
   * tag and the value, and the edited text is the title line, the value and
   * the confirmation.
   */
  lemma TapRenderedReply(title: string, value: string)
    requires '*' !in title && '\n' !in title
    ensures SplitOnce(Payload(value), '|') == [CopyTag, value]
    ensures ConfirmedText(RecoverHeader(Body(title, value)), value)
      == "**" + title + ":**\n`" + value + "`\n\n" + ConfirmationLine
  {
    PayloadRoundTrip(value);
    HeaderOfBody(title, value);
  }

  /** The header recovered from each of the three replies is that reply's bold title line. */
  lemma HeaderOfEveryReply(n: Notification)
    requires ValidNotification(n)
    ensures forall k :: 0 <= k < 3 ==>
      RecoverHeader(Render(Extract(n)[k]).text) == "**" + Extract(n)[k].title + ":**"
  {
    var fs := Extract(n);
    TitlesArePlain(n);
    forall k | 0 <= k < 3
      ensures RecoverHeader(Render(fs[k]).text) == "**" + fs[k].title + ":**"
    {
      assert fs[k] in fs;
      HeaderOfBody(fs[k].title, fs[k].value);
    }
  }

  /**
   * Every button among the three replies is "Copy Value", and its payload
   * decodes to the copy tag and exactly the value of its reply.
   */
  lemma ButtonsDecode(n: Notification)
    requires ValidNotification(n)
    ensures forall k :: 0 <= k < 3 && Render(Extract(n)[k]).markup.Some? ==>
      Render(Extract(n)[k]).markup.value.caption == CopyCaption &&
      SplitOnce(Render(Extract(n)[k]).markup.value.payload, '|') == [CopyTag, Extract(n)[k].value]
  {
    var fs := Extract(n);
    forall k | 0 <= k < 3 && Render(fs[k]).markup.Some?
      ensures SplitOnce(Render(fs[k]).markup.value.payload, '|') == [CopyTag, fs[k].value]
    {
      PayloadRoundTrip(fs[k].value);
    }
  }
}
