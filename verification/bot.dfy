/**
 * The two handlers as state changes. A `Chat` records what the bot sends:
 * the replies, in order, and the callback answers. A `Message` is a sent
 * message whose text and keyboard the acknowledgment edits in place: it is
 * Pending while it has a button and Acknowledged once the edit removes it.
 * Whether the platform accepts an edit is not decided here; it is a parameter.
 */
module Bot {
  import opened Wrappers
  import opened Extractor
  import opened Presenter
  import opened Acknowledger

  class Message {
    var text: string
    var markup: Option<Button>

    constructor (text: string, markup: Option<Button>)
      ensures this.text == text && this.markup == markup
    {
      this.text := text;
      this.markup := markup;
    }

    /** The message still shows its button and waits for a tap. */
    predicate Pending()
      reads this
    {
      markup.Some?
    }
  }

  /** How one tap was handled; `IndexError` is the payload without a `|`. */
  datatype AckOutcome = Edited | RepliedInstead | Ignored | IndexError

  /** Rendering a list of three fields one by one. */
  lemma RenderAllOfThree(fields: seq<Field>, a: Field, b: Field, c: Field)
    requires fields == [a, b, c]
    ensures seq(|fields|, j requires 0 <= j < |fields| => Render(fields[j])) == [Render(a), Render(b), Render(c)]
  {
  }

  class Chat {
    /** Every reply sent so far, oldest first. */
    var outbox: seq<Reply>
    /** Every callback answer given so far, oldest first. */
    var answers: seq<string>

    constructor ()
      ensures outbox == [] && answers == []
    {
      outbox := [];
      answers := [];
    }

    /**
     * The notification handler: nothing for an empty text, otherwise exactly
     * three replies, sent one after another in the order date, invoice
     * number, cost price.
     */
    method HandleNotificationMessage(n: Notification)
      requires ValidNotification(n)
      modifies this`outbox
      ensures n.text == [] ==> outbox == old(outbox)
      ensures n.text != [] ==>
        outbox == old(outbox) + [Render(DateField(n)), Render(InvoiceField(n.text)), Render(PriceField(n.text))]
    {
      if n.text == [] {
        return;
      }
      var messagesToSend := Extract(n);
      RenderAllOfThree(messagesToSend, DateField(n), InvoiceField(n.text), PriceField(n.text));
      SendAll(messagesToSend);
    }

    /** The send loop: one rendered reply per field, in order, after what was sent before. */
    method SendAll(fields: seq<Field>)
      modifies this`outbox
      ensures outbox == old(outbox) + seq(|fields|, j requires 0 <= j < |fields| => Render(fields[j]))
    {
      var k := 0;
      while k < |fields|
        invariant 0 <= k <= |fields|
        invariant outbox == old(outbox) + seq(k, j requires 0 <= j < k => Render(fields[j]))
      {
        outbox := outbox + [Render(fields[k])];
        k := k + 1;
      }
    }

    /**
     * The button handler: always answer the tap first; then split the payload
     * at its first `|`. Without a `|` the handler stops with an index error;
     * a tag other than `copy_value` is ignored. Otherwise the tapped message
     * is edited to the confirmed text with its button removed, or, when the
     * edit fails, one new reply with the value is sent instead.
     */
    method ButtonHandler(data: string, message: Message, editSucceeds: bool) returns (outcome: AckOutcome)
      modifies this, message
      ensures answers == old(answers) + [AnswerText]
      ensures var parts := SplitOnce(data, '|');
        && (outcome == IndexError <==> |parts| == 1)
        && (outcome == Ignored <==> |parts| == 2 && parts[0] != CopyTag)
        && (outcome == Edited <==> |parts| == 2 && parts[0] == CopyTag && editSucceeds)
        && (outcome == RepliedInstead <==> |parts| == 2 && parts[0] == CopyTag && !editSucceeds)
        && (outcome == Edited ==>
              message.text == ConfirmedText(RecoverHeader(old(message.text)), parts[1])
              && !message.Pending())
        && (outcome == RepliedInstead ==>
              outbox == old(outbox) + [Reply(FallbackText(parts[1]), None)])
      ensures outcome != Edited ==> message.text == old(message.text) && message.markup == old(message.markup)
      ensures outcome != RepliedInstead ==> outbox == old(outbox)
    {
      answers := answers + [AnswerText];
      var parts := SplitOnce(data, '|');
      if |parts| < 2 {
        return IndexError;
      }
      var action, copyContent := parts[0], parts[1];
      if action != CopyTag {
        return Ignored;
      }
      var header := RecoverHeader(message.text);
      var newText := ConfirmedText(header, copyContent);
      if editSucceeds {
        message.text, message.markup := newText, None;
        outcome := Edited;
      } else {
        outbox := outbox + [Reply(FallbackText(copyContent), None)];
        outcome := RepliedInstead;
      }
    }
  }
}
