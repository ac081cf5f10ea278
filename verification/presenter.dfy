/**
 * The rendering half of the notification handler: each extracted field
 * becomes one reply, with a bold title line, the value as an inline code span
 * and, under the button rule, a single "Copy Value" button.
 */
module Presenter {
  import opened Wrappers
  import opened Text
  import opened Patterns
  import opened Extractor

  const CopyCaption := "\U{1F4CB} Copy Value"

  /** The action tag in front of the `|` of a button payload. */
  const CopyTag := "copy_value"

  /** An inline keyboard button: its caption and its callback payload. */
  datatype Button = Button(caption: string, payload: string)

  /** A reply as sent: its Markdown text and its optional one-button keyboard. */
  datatype Reply = Reply(text: string, markup: Option<Button>)

  /** `**<title>:**` on one line, then the value as an inline code span. */
  function Body(title: string, value: string): string {
    "**" + title + ":**\n`" + value + "`"
  }

  /** The callback payload `copy_value|<value>`. */
  function Payload(value: string): string {
    CopyTag + "|" + value
  }

  /**
   * The button rule: a value other than the sentinel, or a title that marks
   * the date field.
   */
  predicate ShowsButton(title: string, value: string) {
    value != Sentinel || Contains(title, "(Fallback)") || Contains(title, "(Metadata)")
  }

  /** One reply of the send loop. */
  function Render(f: Field): Reply {
    Reply(Body(f.title, f.value),
          if ShowsButton(f.title, f.value) then Some(Button(CopyCaption, Payload(f.value))) else None)
  }

  /** The invoice and cost titles mention neither date marker; both date titles mention one. */
  lemma TitleMarkers()
    ensures Contains(MetadataLabel, "(Metadata)") && Contains(FallbackLabel, "(Fallback)")
    ensures !Contains(InvoiceLabel, "(Fallback)") && !Contains(InvoiceLabel, "(Metadata)")
    ensures !Contains(CostLabel, "(Fallback)") && !Contains(CostLabel, "(Metadata)")
  {
    assert OccursAt(MetadataLabel, "(Metadata)", 22);
    assert OccursAt(FallbackLabel, "(Fallback)", 22);
    MissingFirstCharNotContained(InvoiceLabel, "(Fallback)");
    MissingFirstCharNotContained(InvoiceLabel, "(Metadata)");
    MissingFirstCharNotContained(CostLabel, "(Fallback)");
    MissingFirstCharNotContained(CostLabel, "(Metadata)");
  }

  /**
   * The button rule on the three extracted fields: the date reply always has
   * a button, the invoice and cost replies exactly when their pattern occurs
   * in the text.
   */
  lemma ButtonRuleOnFields(n: Notification)
    requires ValidNotification(n)
    ensures Render(DateField(n)).markup.Some?
    ensures Render(InvoiceField(n.text)).markup.Some? <==> exists i: nat :: InvoiceMatchAt(n.text, i)
    ensures Render(PriceField(n.text)).markup.Some? <==> exists i: nat, e: nat :: IsPriceMatch(n.text, i, e)
  {
    TitleMarkers();
  }

  /** Neither `*` nor a line break occurs in a field title, so the title line is one bold span. */
  lemma TitlesArePlain(n: Notification)
    requires ValidNotification(n)
    ensures forall f | f in Extract(n) :: '*' !in f.title && '\n' !in f.title
  {
    DateLabelsArePlain();
    ValueLabelsArePlain();
    var fs := Extract(n);
    assert fs == [DateField(n), InvoiceField(n.text), PriceField(n.text)];
  }

  lemma DateLabelsArePlain()
    ensures '*' !in MetadataLabel && '\n' !in MetadataLabel
    ensures '*' !in FallbackLabel && '\n' !in FallbackLabel
  {
  }

  lemma ValueLabelsArePlain()
    ensures '*' !in InvoiceLabel && '\n' !in InvoiceLabel
    ensures '*' !in CostLabel && '\n' !in CostLabel
  {
  }
}
