/**
 * Worked examples: the backtracking case of the price pattern, comma
 * stripping, and a whole notification followed by a tap on its invoice reply.
 */
module Scenarios {
  import opened Wrappers
  import opened Text
  import opened Patterns
  import opened Timestamps
  import opened Extractor
  import opened Presenter
  import opened Acknowledger
  import opened Bot

  /** When the leftmost price match is known, the price value is its group without commas. */
  lemma PriceFieldAt(s: string, i: nat, e: nat)
    requires IsPriceMatch(s, i, e)
    requires forall k: nat :: k < i ==> PriceGroupEnd(s, k).None?
    ensures PriceField(s).value == StripCommas(s[i..e])
  {
    var v := PriceField(s).value;
    forall k: nat, e': nat | k < i
      ensures !IsPriceMatch(s, k, e')
    {
      PriceGroupEndCorrect(s, k, e');
    }
    var i': nat, e': nat :| IsLeftmostPriceMatch(s, i', e') && v == StripCommas(s[i'..e']);
    assert i' == i;
    PriceGroupEndCorrect(s, i, e);
    PriceGroupEndCorrect(s, i, e');
  }

  lemma MatchAt1234(s: string)
    requires s == "1234 \U{17DB}"
    ensures IsPriceMatch(s, 1, 4)
    ensures PriceGroupEnd(s, 0).None?
  {
    assert PriceGroupSplit(s, 1, 4, 4, 4) by {
      assert CommaGroupsSpan(s, 4, 4);
      assert s[1..4] == "234";
    }
    RunEndExact(s, 4, 5, IsSpace);
    RunEndExact(s, 0, 4, IsDigit);
  }

  /** Backtracking: four digits cannot start a match, so the match starts one digit later. */
  lemma BacktrackingPrice(s: string)
    requires s == "1234 \U{17DB}"
    ensures PriceField(s).value == "234"
  {
    MatchAt1234(s);
    PriceFieldAt(s, 1, 4);
    assert s[1..4] == "234";
    StripCommasCommaFree(s[1..4]);
  }

  lemma MatchAt75800(s: string)
    requires s == "75,800 \U{17DB}"
    ensures IsPriceMatch(s, 0, 6)
  {
    assert PriceGroupSplit(s, 0, 2, 6, 6) by {
      assert CommaGroupAt(s, 2);
      assert CommaGroupsSpan(s, 6, 6);
      assert s[0..2] == "75";
    }
    RunEndExact(s, 6, 7, IsSpace);
  }

  lemma Strip75800()
    ensures StripCommas("75,800") == "75800"
  {
    assert StripCommas("75,800") == "75" + StripCommas(",800");
    StripCommasCommaFree("800");
  }

  /** A grouped amount loses its comma. */
  lemma GroupedPrice(s: string)
    requires s == "75,800 \U{17DB}"
    ensures PriceField(s).value == "75800"
  {
    MatchAt75800(s);
    PriceFieldAt(s, 0, 6);
    assert s[0..6] == "75,800";
    Strip75800();
  }

  lemma MatchAt1234Point50(s: string)
    requires s == "1,234.50 \U{17DB}"
    ensures IsPriceMatch(s, 0, 8)
  {
    assert PriceGroupSplit(s, 0, 1, 5, 8) by {
      assert CommaGroupAt(s, 1);
      assert CommaGroupsSpan(s, 5, 5);
      assert s[0..1] == "1";
      assert s[6..8] == "50";
    }
    RunEndExact(s, 8, 9, IsSpace);
  }

  lemma Strip1234Point50(v: string)
    requires v == "1,234.50"
    ensures StripCommas(v) == "1234.50"
  {
    assert v[1] == ',';
    assert v == v[..1] + [','] + v[2..];
    StripCommasOneComma(v[..1], v[2..]);
    assert v[..1] + v[2..] == "1234.50";
  }

  /** A decimal amount keeps its point. */
  lemma DecimalPrice(s: string)
    requires s == "1,234.50 \U{17DB}"
    ensures PriceField(s).value == "1234.50"
  {
    MatchAt1234Point50(s);
    PriceFieldAt(s, 0, 8);
    assert s[0..8] == "1,234.50";
    Strip1234Point50(s[0..8]);
  }

  /** The text of the notification used in `NotificationThenTap`. */
  const OrderText := "Order P-XY9 cost 1,000 \U{17DB} date n/a"

  lemma OrderNoEarlierInvoice(s: string)
    requires s == OrderText
    ensures forall k: nat :: k < 6 ==> !InvoiceMatchAt(s, k)
  {
    assert s[0] == 'O' && s[1] == 'r' && s[2] == 'd' && s[3] == 'e' && s[4] == 'r' && s[5] == ' ';
  }

  lemma OrderInvoiceCapture(s: string)
    requires s == OrderText
    ensures IsInvoiceCapture(s, 6, "XY9")
  {
    OrderNoEarlierInvoice(s);
    assert s[6] == 'P' && s[7] == '-' && s[8] == 'X' && s[9] == 'Y' && s[10] == '9' && s[11] == ' ';
    assert s[8..11] == "XY9";
  }

  lemma OrderInvoice(s: string)
    requires s == OrderText
    ensures InvoiceField(s).value == "XY9"
  {
    OrderInvoiceCapture(s);
    InvoiceFieldOfCapture(s, 6, "XY9");
  }

  lemma OrderPriceMatch(s: string)
    requires s == OrderText
    ensures IsPriceMatch(s, 17, 22)
  {
    assert PriceGroupSplit(s, 17, 18, 22, 22) by {
      assert CommaGroupAt(s, 18);
      assert CommaGroupsSpan(s, 22, 22);
      assert s[17..18] == "1";
    }
    RunEndExact(s, 22, 23, IsSpace);
  }

  /** The lone digit of "P-XY9" is followed by a space and a letter, not by `៛`. */
  lemma OrderNoPriceAt10(s: string)
    requires s == OrderText
    ensures PriceGroupEnd(s, 10).None?
  {
    assert s[10] == '9';
    assert s[11] == ' ';
    assert s[12] == 'c';
    assert s[10..11][0] == s[10];
    RunEndExact(s, 10, 11, IsDigit);
    assert !CommaGroupAt(s, 11);
    assert s[11..12][0] == s[11];
    RunEndExact(s, 11, 12, IsSpace);
  }

  lemma OrderNoEarlierPrice(s: string)
    requires s == OrderText
    ensures forall k: nat :: k < 17 ==> PriceGroupEnd(s, k).None?
  {
    forall k: nat | k < 17
      ensures PriceGroupEnd(s, k).None?
    {
      if k == 10 {
        OrderNoPriceAt10(s);
      } else {
        assert !IsDigit(s[k]);
        RunEndExact(s, k, k, IsDigit);
      }
    }
  }

  lemma Strip1000()
    ensures StripCommas("1,000") == "1000"
  {
    assert StripCommas("1,000") == "1" + StripCommas(",000");
    StripCommasCommaFree("000");
  }

  lemma OrderPriceGroup(s: string)
    requires s == OrderText
    ensures s[17..22] == "1,000"
  {
    assert s[17] == '1' && s[18] == ',' && s[19] == '0' && s[20] == '0' && s[21] == '0';
  }

  lemma OrderPrice(s: string)
    requires s == OrderText
    ensures PriceField(s).value == "1000"
  {
    OrderPriceMatch(s);
    OrderNoEarlierPrice(s);
    PriceFieldAt(s, 17, 22);
    OrderPriceGroup(s);
    Strip1000();
  }

  lemma Pad2024()
    ensures Pad(2024, 4) == "2024"
  {
    assert Pad(2, 1) == "2";
    assert Pad(20, 2) == "20";
    assert Pad(202, 3) == "202";
  }

  lemma PadSmall()
    ensures Pad(1, 2) == "01" && Pad(0, 2) == "00"
  {
    assert Pad(0, 1) == "0";
  }

  lemma OrderDate()
    ensures Format(Timestamp(2024, 1, 1, 0, 0, 0)) == "2024-01-01 00:00:00"
  {
    Pad2024();
    PadSmall();
  }

  /** A field whose value is not the sentinel is rendered with its copy button. */
  lemma RenderFound(f: Field)
    requires f.value != Sentinel
    ensures Render(f) == Reply(Body(f.title, f.value), Some(Button(CopyCaption, Payload(f.value))))
  {
  }

  lemma OrderDateReply(n: Notification)
    requires n == Notification(OrderText, Timestamp(2024, 1, 1, 0, 0, 0), None)
    ensures Render(DateField(n)) ==
      Reply(Body(FallbackLabel, "2024-01-01 00:00:00"), Some(Button(CopyCaption, Payload("2024-01-01 00:00:00"))))
  {
    OrderDate();
    var f := DateField(n);
    assert f == Field(FallbackLabel, "2024-01-01 00:00:00");
    assert |f.value| != |Sentinel|;
    RenderFound(f);
  }

  lemma OrderInvoiceReply(s: string)
    requires s == OrderText
    ensures Render(InvoiceField(s)) == Reply(Body(InvoiceLabel, "XY9"), Some(Button(CopyCaption, Payload("XY9"))))
  {
    OrderInvoice(s);
    var f := InvoiceField(s);
    assert |f.value| != |Sentinel|;
    RenderFound(f);
  }

  lemma OrderPriceReply(s: string)
    requires s == OrderText
    ensures Render(PriceField(s)) == Reply(Body(CostLabel, "1000"), Some(Button(CopyCaption, Payload("1000"))))
  {
    OrderPrice(s);
    var f := PriceField(s);
    assert |f.value| != |Sentinel|;
    RenderFound(f);
  }

  /** The three replies to the order notification, in the order they are sent. */
  lemma OrderReplies(n: Notification)
    requires n == Notification(OrderText, Timestamp(2024, 1, 1, 0, 0, 0), None)
    ensures [Render(DateField(n)), Render(InvoiceField(n.text)), Render(PriceField(n.text))] == [
      Reply(Body(FallbackLabel, "2024-01-01 00:00:00"), Some(Button(CopyCaption, Payload("2024-01-01 00:00:00")))),
      Reply(Body(InvoiceLabel, "XY9"), Some(Button(CopyCaption, Payload("XY9")))),
      Reply(Body(CostLabel, "1000"), Some(Button(CopyCaption, Payload("1000"))))]
  {
    OrderDateReply(n);
    OrderInvoiceReply(n.text);
    OrderPriceReply(n.text);
  }

  /** Tapping the button of a rendered reply with a plain title edits it to the confirmed text. */
  method TapReply(chat: Chat, message: Message, title: string, value: string)
    requires '*' !in title && '\n' !in title
    requires message.text == Body(title, value) && message.markup == Some(Button(CopyCaption, Payload(value)))
    modifies chat, message
    ensures message.text == "**" + title + ":**\n`" + value + "`\n\n" + ConfirmationLine
    ensures !message.Pending()
    ensures chat.answers == old(chat.answers) + [AnswerText] && chat.outbox == old(chat.outbox)
  {
    TapRenderedReply(title, value);
    var outcome := chat.ButtonHandler(message.markup.value.payload, message, true);
    assert outcome == Edited;
  }

  /**
   * A notification "Order P-XY9 cost 1,000 ៛ date n/a" received at
   * 2024-01-01 00:00:00 without forwarding provenance: three replies, each with
   * a button; tapping the invoice reply edits it to the confirmed text.
   */
  method NotificationThenTap(n: Notification)
    requires n == Notification(OrderText, Timestamp(2024, 1, 1, 0, 0, 0), None)
  {
    var chat := new Chat();
    chat.HandleNotificationMessage(n);
    OrderReplies(n);
    var invoiceReply := chat.outbox[1];
    assert invoiceReply == Reply(Body(InvoiceLabel, "XY9"), Some(Button(CopyCaption, Payload("XY9"))));

    var message := new Message(invoiceReply.text, invoiceReply.markup);
    ValueLabelsArePlain();
    TapReply(chat, message, InvoiceLabel, "XY9");
  }
}
