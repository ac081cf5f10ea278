# PPWSA notification extractor bot, modelled in Dafny

The bot listens to one notification bot in Telegram. For each notification
text it sends three replies:

- the date of the original message;
- the invoice number, the `[A-Z0-9]+` run after `P-`;
- the cost price, a grouped-thousands amount followed by the riel sign `៛`, with its commas removed.

Each reply shows a bold title and the value as inline code. The date reply
always carries a "📋 Copy Value" button; the invoice and price replies carry it
only when their pattern was found. The button's callback payload is
`copy_value|<value>`. Tapping the button answers the tap, recovers the bold title line from the message and
rewrites the message into a confirmation. If the rewrite fails, it sends the
confirmation as a new reply instead.

The project models that core, file by file:

- `text.dfy`: ASCII character classes, greedy runs, substring containment.
- `patterns.dfy`: the two fixed regular expressions. Each has a hand-written
  matcher with leftmost-search semantics and a declarative description of the
  strings the pattern accepts. For the price pattern the two are proved to
  agree.
  - Python's backtracking is reproduced. A start position can succeed only with
    the greedy choice at every step.
  - So on `1234 ៛` the match starts one digit in and captures `234` (`Scenarios.BacktrackingPrice`).
- `timestamps.dfy`: the `%Y-%m-%d %H:%M:%S` formatting of a timestamp, and a parser that reads it back.
- `extractor.dfy`: the three fields (title and value), the sentinel `Pattern not found.`, and comma stripping.
- `presenter.dfy`: the reply body, the button rule and the payload.
- `acknowledger.dfy`: the split at the first `|`, the anchored lazy header
  pattern `\*\*.*?\*\*`, and the two confirmation texts.
- `bot.dfy`: the two handlers as methods of a `Chat` class, which records the
  replies and callback answers it sends. The tapped `Message` is an object
  whose text and button the acknowledgment edits in place.
- `scenarios.dfy`: worked examples. They cover the price examples `75,800 ៛` →
  `75800` and `1,234.50 ៛` → `1234.50`, and a full notification followed by a
  tap on its invoice reply.

Where the bot's documented behaviour and its code differ, the model follows the code:

- The confirmation line is `✅ **Extracted Value**`, in bold.
- The payload is split with `split('|', 1)`. So a value that contains `|` still comes back whole.
- The button rule tests the value against the sentinel and the title for
  `(Fallback)` / `(Metadata)`. No separate "found" flag exists.
- A payload without `|` fails at `data[1]`, after the tap was answered and before the tag is checked.

## Model

| member | source | states |
|---|---|---|
| Patterns.FirstInvoiceMatch | app.py:89 | the scan returns the leftmost start of `P-[A-Z0-9]` at or after its position, and none when there is no such start |
| Patterns.SearchInvoice | app.py:89-92 | no result exactly when no `P-` followed by an `[A-Z0-9]` occurs; otherwise the result is the maximal `[A-Z0-9]` run after the leftmost such `P-`, non-empty and made of `[A-Z0-9]` only |
| Patterns.InvoiceCaptureUnique | app.py:40 | the leftmost invoice match and its greedy capture are unique |
| Patterns.PriceGroupEnd | app.py:43 | the deterministic end of a capture group from a start, past the start; what it means is stated by `PriceGroupEndSound`, `PriceGroupEndComplete` and `PriceGroupEndCorrect` |
| Patterns.PriceGroupEndComplete | app.py:43 | every match of the price pattern at a start is the group end the deterministic matcher computes |
| Patterns.PriceGroupEndSound | app.py:43 | whatever the deterministic matcher computes is a match of the price pattern: 1–3 digits, `,ddd` groups, an optional fraction, then `\s*៛` |
| Patterns.PriceGroupEndCorrect | app.py:43 | a capture group from `i` to `e` followed by `\s*៛` exists iff the matcher returns `e` from `i`; so at most one group end per start, despite backtracking |
| Patterns.PriceGroupStops | app.py:43 | before a character that is no digit, comma or point, the greedy digit run, comma groups and fraction each stop exactly where a match's parts end |
| Patterns.FirstPriceMatch | app.py:100 | the scan returns the leftmost start at or after its position from which the matcher succeeds, and none when there is none |
| Patterns.SearchPrice | app.py:100-103 | `COST_PRICE_PATTERN.search(text).group(1)`; its contract is stated by `SearchPriceIsLeftmostMatch` and, after comma removal, by `Extractor.SearchPriceValue` |
| Patterns.SearchPriceIsLeftmostMatch | app.py:100-103 | the price search finds nothing iff the pattern matches nowhere; otherwise it returns the group of the leftmost match |
| Timestamps.Format | app.py:69-80 | the formatted date always has the shape `YYYY-MM-DD HH:MM:SS`: 19 characters, digits between the fixed separators |
| Timestamps.Pad | app.py:69 | zero-padding to a width gives exactly that many digits; `PadRoundTrip` states that they read back as the number |
| Timestamps.PadRoundTrip | app.py:69 | zero-padding a number that fits the width loses nothing: its digits read back as the number |
| Timestamps.ParseFormat | app.py:69-80 | reading the formatted date back gives every field of the timestamp |
| Timestamps.FormatInjective | app.py:69-80 | distinct timestamps give distinct date texts |
| Timestamps.DateTimeTextIsCodeSafe | app.py:86 | a formatted date contains no backtick |
| Extractor.StripCommas | app.py:104 | `replace(',', '')`, never longer than its input; `StripCommasNoComma`, `StripCommasAppend`, `StripCommasCommaFree` and `StripCommasOneComma` state what it removes and what it keeps |
| Extractor.StripCommasNoComma | app.py:104 | no comma survives the removal |
| Extractor.StripCommasAppend | app.py:104 | comma removal works piecewise, so the other characters keep their order |
| Extractor.StripCommasCommaFree | app.py:104 | a string without commas is left unchanged |
| Extractor.StripCommasOneComma | app.py:104 | a single comma between two comma-free parts is exactly what is removed |
| Extractor.CommaGroupsStrip | app.py:103-104 | `,ddd` groups become plain digits |
| Extractor.PlainDecimalShape | app.py:104-106 | a stripped price starts with a digit and holds only digits and at most one `.` |
| Extractor.StripPriceGroup | app.py:103-104 | stripping a capture group keeps its leading digits and its fraction and only strips the comma groups |
| Extractor.PriceMatchValue | app.py:103-104 | the group of any price match, stripped of commas, is a plain decimal |
| Extractor.SearchPriceValue | app.py:100-104 | the group the price search returns, stripped of commas, is a plain decimal |
| Extractor.OriginTime | app.py:72-80 | the forward date when set, else the received date; stated through `DateField`, whose value encodes it |
| Extractor.DateField | app.py:72-86 | title "Original Message Date (Metadata)" iff a forward date is set, "(Fallback)" otherwise; the value is a formatted date, never the sentinel, and it encodes the forward date when set, else the received date |
| Extractor.InvoiceField | app.py:89-97 | the title is always "Invoice Number"; the value is the sentinel iff no invoice token occurs; otherwise it is the capture after the leftmost `P-` |
| Extractor.InvoiceFieldOfCapture | app.py:89-94 | whenever a string is the leftmost invoice capture of the text, it is the invoice value |
| Extractor.PriceField | app.py:100-109 | the title is always "Cost Price"; the value is the sentinel iff no price match occurs; otherwise it is the leftmost match's group without commas, a plain decimal |
| Extractor.Extract | app.py:113-117 | three fields in the order date, invoice, price, with their titles; the date value is never the sentinel; every value is non-empty and free of backticks |
| Extractor.FieldValuesAreCodeSafe | app.py:121 | none of the three values is empty or contains a backtick, so each body shows the value as one code span |
| Presenter.Body | app.py:121 | `**<title>:**`, a line break and the value as code; `Acknowledger.HeaderOfBody` states that the bold title line is recovered from it |
| Presenter.Payload | app.py:127 | `copy_value\|<value>`; `Acknowledger.PayloadRoundTrip` states that it decodes back to the tag and the value |
| Presenter.ShowsButton | app.py:123-126 | a value other than the sentinel, or a date title; `ButtonRuleOnFields` states what it means on the three fields |
| Presenter.Render | app.py:121-139 | one reply of the send loop; `ButtonRuleOnFields` states when it has a button, `Acknowledger.HeaderOfEveryReply` that its header is recovered, `Acknowledger.ButtonsDecode` that its button decodes to its value |
| Presenter.TitleMarkers | app.py:126 | both date titles carry their marker; the invoice and price titles carry neither marker |
| Presenter.ButtonRuleOnFields | app.py:123-139 | the date reply always has a button; the invoice and price replies have one iff their pattern occurs |
| Presenter.TitlesArePlain | app.py:121 | no field title contains `*` or a line break |
| Acknowledger.SplitOnce | app.py:154-156 | one part iff the separator is absent, and then the part is the whole string; otherwise the first part has no separator and the parts joined by it give the string back |
| Acknowledger.SplitOnceJoin | app.py:154 | joining two parts with the separator and splitting again gives them back when the first has no separator |
| Acknowledger.PayloadRoundTrip | app.py:154-156 | decoding `copy_value\|v` gives the tag and exactly `v`, for every `v`, including one that contains `\|` |
| Acknowledger.CloseFrom | app.py:161 | finds the first `**` the lazy `.*?` reaches before a line break, and none when a line break or the end of the text comes first |
| Acknowledger.RecoverHeader | app.py:161-162 | the header is the shortest `**…**` at the start of the text with no line break inside; it is empty iff there is none |
| Acknowledger.HeaderOfBody | app.py:159-162 | on a rendered reply whose title has no `*` and no line break, the header is `**<title>:**` |
| Acknowledger.HeaderOfEveryReply | app.py:159-162 | the header recovered from each of the three replies is `**<its title>:**` |
| Acknowledger.ButtonsDecode | app.py:154-156 | every button of the three replies is "📋 Copy Value", and its payload decodes to the copy tag and exactly the value of its reply |
| Acknowledger.ConfirmedText | app.py:165 | the edited text; `TapRenderedReply` states it is the title line, the value as code, a blank line and the confirmation line |
| Acknowledger.FallbackText | app.py:176 | the text of the reply sent when the edit fails; `Bot.Chat.ButtonHandler` states it is sent exactly then |
| Acknowledger.TapRenderedReply | app.py:154-165 | tapping a rendered reply decodes its own value, and the confirmed text is the title line, the value as code, a blank line and the confirmation line |
| Bot.Chat.HandleNotificationMessage | app.py:55-147 | an empty text sends nothing; otherwise the loop sends exactly three replies, the rendered date, invoice and price fields, in that order, after what was sent before |
| Bot.Chat.SendAll | app.py:120-147 | the send loop appends one rendered reply per field, in the order of the list, after what was sent before, and sends nothing else |
| Bot.Chat.ButtonHandler | app.py:149-178 | the tap is always answered; the outcome is an index error without `\|`, ignored for another tag, otherwise an edit (new text from the recovered header, button removed) or, when the edit fails, exactly one new reply; nothing else changes |
| Scenarios.PriceFieldAt | app.py:100-106 | when a price match starts at `i` and no earlier start matches, the price value is that group without commas |
| Scenarios.BacktrackingPrice | app.py:43 | on `1234 ៛` the price value is `234` |
| Scenarios.GroupedPrice | app.py:100-106 | on `75,800 ៛` the price value is `75800` |
| Scenarios.DecimalPrice | app.py:100-106 | on `1,234.50 ៛` the price value is `1234.50` |
| Scenarios.OrderInvoice | app.py:89-94 | on `Order P-XY9 cost 1,000 ៛ date n/a` the invoice value is `XY9` |
| Scenarios.OrderNoPriceAt10 | app.py:43 | on the same text the lone digit `9` of `P-XY9` does not start a price match |
| Scenarios.OrderNoEarlierPrice | app.py:43 | on the same text no price match starts before `1,000` |
| Scenarios.OrderPrice | app.py:100-106 | on the same text the price value is `1000` |
| Scenarios.OrderDate | app.py:69-80 | 2024-01-01 00:00:00 is formatted as `2024-01-01 00:00:00` |
| Scenarios.RenderFound | app.py:121-136 | a field whose value is not the sentinel is rendered with its copy button |
| Scenarios.OrderDateReply | app.py:79-86 | the date reply of a notification without a forward date is the Fallback title with the formatted date and its button |
| Scenarios.OrderInvoiceReply | app.py:120-136 | the invoice reply of the order text is `**Invoice Number:**` with value `XY9` and the button `copy_value\|XY9` |
| Scenarios.OrderPriceReply | app.py:120-136 | the price reply of the order text shows `1000` with the button `copy_value\|1000` |
| Scenarios.OrderReplies | app.py:113-136 | the three replies to the order notification: the Fallback date, `XY9` and `1000`, each with its copy button |
| Scenarios.TapReply | app.py:152-172 | tapping a rendered reply whose edit succeeds leaves `**<title>:**\n`v`\n\n✅ **Extracted Value**` with no button, one answer more, and no new reply |

## Left out

- Telegram transport and async plumbing: `reply_text`, `edit_message_text`, `query.answer`, polling. Sending is an append to `Chat.outbox`, answering an append to `Chat.answers`, editing an assignment to a `Message`.
- Bot.Chat.ButtonHandler: whether the platform accepts the edit is the parameter `editSucceeds`. The exception and the log line of the failure path are not modelled.
- Bot.Chat.ButtonHandler: answers and replies are kept in separate sequences. So the model states that the tap is always answered, but not that the answer comes before a fallback reply.
- The reply target: each reply is sent in answer to the notification. That threading is not modelled, only the text and the button.
- What Telegram returns as the text of a sent message. It may drop the Markdown markers. The header is recovered from the text as the bot sent it.
- How Telegram renders Markdown. Bodies are modelled as the strings the bot sends.
- Configuration, logging, `start_command`, `main`, handler registration and the sender filter (app.py:5-36, app.py:48-53, app.py:181-212). They are I/O with no logic to prove.
- `query.data` or the message text being `None`, and a notification whose text is `None`. A missing text is modelled as the empty string, which the handler also ignores.
- Python's Unicode-aware `\d` and `\s`: digits and whitespace are ASCII here. So, for example, Khmer digits do not start a price.
- `datetime.strftime` and time zones. A timestamp is a record of integer fields. The year is always zero-padded to four digits, whereas the platform's `%Y` may not pad years below 1000.
- Calendar validity: a day is between 1 and 31 whatever the month.
