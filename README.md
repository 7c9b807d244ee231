# Expense ledger from a WhatsApp chat, and a vCard reader

This project models, in Dafny, the core of two scripts of a personal
administration repository.

`expenses/obtener_chat_whashapp.py` turns an exported WhatsApp transcript
into an expense ledger:

1. A regular expression pulls `(date, time, sender, message)` tuples out of the
   transcript (`extract_data_from_text`).
2. `process_message` turns each tuple into a ledger entry, or drops it. It
   parses the date with `%m/%d/%Y` and then `%m/%d/%y`, and keeps dates inside
   the requested range, both bounds included. It classifies the message by its
   marker substrings (`IMG-`/`Comprobante_` attachments, `STK-`/`PTT-`
   stickers and voice notes, plain text). It reads the amount from the text, or
   from the OCR or PDF text of the attachment the message names.
3. `create_dataframe` keeps the entries in transcript order.
4. `process_data` coerces `Monto` to a number. It then groups the frame by
   sender into a summary of `Total Monto` and `Verifique Count`.

`mail/depurar_mail.py` reads vCard contacts line by line with `parse_vcard`.
It keeps one current contact dictionary, and the contact list holds
references to it.

Modules:

| module | file | what it holds |
|---|---|---|
| `Opt` | `option.dfy` | `Option` |
| `Strings` | `strings.dfy` | Python's `strip`, `split`, `replace`, `lower`, `\d`, `\s`; digit strings |
| `ChatLines` | `chat_lines.dfy` | the transcript pattern, one match (`MatchAt`) and the `findall` scan (`FindAll`) |
| `ChatDates` | `chat_dates.dfy` | `strptime` with the two formats, and date comparison |
| `Amounts` | `amounts.dfy` | the plain-text and attachment amount patterns, normalisation and `float` |
| `Messages` | `messages.dfy` | `process_message`, as a function `Process` and as the method `ProcessMessage` |
| `Ledger` | `ledger.dfy` | `create_dataframe`, as a function `Collect` and as the method `CreateDataframe` |
| `Summary` | `summary.dfy` | the `groupby` summary, as written and with the count corrected |
| `VCard` | `vcard.dfy` | `parse_vcard`, as a fold over values and as a method over `Contact` objects |

The model follows the code as written. These behaviours may surprise a reader:

- The image markers are tested before the sticker and voice-note markers. A
  message that holds both kinds becomes an `Imagen` entry and is not skipped.
- A missing attachment leaves the amount at 0. It is not flagged `Verifique`.
- The attachment pattern requires a `$` before the amount. Text without one
  is flagged `Verifique`.
- A PDF and an image both give `Tipo` `Imagen`.
- The plain pattern is `\d+(?:\.\d{2})?`. The shared normalisation deletes
  every dot, so `12.50` is read as 1250, and a comma ends the token.
- A successful extraction annotates the message before the amount pattern
  runs. A flagged attachment whose text was read therefore still carries
  the annotation.

## Model

| member | source | states |
|---|---|---|
| ChatLines.MatchAt | expenses/obtener_chat_whashapp.py:32 | a match at a position consumes at least one character and stays inside the text |
| ChatLines.MatchAtSound | expenses/obtener_chat_whashapp.py:32 | the text matched is exactly `<date>, <time> - <sender>: <message>` built from the four groups; the date has the shape `\d{1,2}/\d{1,2}/\d{2,4}`, the time `\d{1,2}:\d{2}\s?[APMapm]*`, the sender is non-empty without a colon, the message holds no newline, and the match ends at a newline or at the end of the text |
| ChatLines.SpansSound | expenses/obtener_chat_whashapp.py:32 | the group spans of a match are ordered and inside the text, the groups have exactly the pattern's shapes (as for `MatchAtSound`), the matched text is the line built from them, and it stops at a newline or at the end of the text |
| ChatLines.FindAllSound | expenses/obtener_chat_whashapp.py:32-33 | every tuple `findall` returns has the pattern's group shapes, and its line occurs in the transcript |
| ChatLines.MatchAtIff | expenses/obtener_chat_whashapp.py:32 | the pattern matches at a position, giving a record and an end, exactly when the text there is the record's line, the record has the group shapes, and the line ends at a newline or at the end of the text |
| ChatLines.MatchAtLine | expenses/obtener_chat_whashapp.py:32 | a line of the documented shape, ending at a newline or at the end of the text, matches as exactly its own four groups |
| ChatLines.FindAllLines | expenses/obtener_chat_whashapp.py:32-33 | consecutive lines of the documented shape give one tuple per line, in order, and nothing else |
| ChatLines.ExtractTranscript | expenses/obtener_chat_whashapp.py:29-33 | `extract_data_from_text` on a transcript of such lines joined by newlines returns its records: the inverse of writing them out |
| ChatDates.ParseDate | expenses/obtener_chat_whashapp.py:49-56 | a date parses exactly when one of the two formats accepts it, and the result is a valid calendar date |
| ChatDates.ParseFormatFields | expenses/obtener_chat_whashapp.py:50-53 | an accepted string splits into month, day and year fields, and each field reads as the date's component |
| ChatDates.TwoDigitWindow | expenses/obtener_chat_whashapp.py:53 | `%y` puts two-digit years in 1969-2068 |
| ChatDates.FormatsExclusive | expenses/obtener_chat_whashapp.py:49-56 | no string is accepted by both formats, so the fallback to `%y` never shadows `%Y` |
| ChatDates.YearLength | expenses/obtener_chat_whashapp.py:49-56 | a year field of neither two nor four characters is rejected |
| ChatDates.Format4RoundTrip | expenses/obtener_chat_whashapp.py:50 | every valid date written as `MM/DD/YYYY` parses back to itself |
| ChatDates.Format2RoundTrip | expenses/obtener_chat_whashapp.py:53 | every valid date of 1969-2068 written as `MM/DD/YY` parses back to itself |
| ChatDates.Format2OutsideWindow | expenses/obtener_chat_whashapp.py:53 | outside 1969-2068, `MM/DD/YY` never parses back to the date written |
| ChatDates.OrdinalOrder | expenses/obtener_chat_whashapp.py:58 | the field-by-field date comparison agrees with the day number of `toordinal` |
| ChatDates.InRangeOrdinal | expenses/obtener_chat_whashapp.py:58-59 | the range check keeps exactly the dates whose day number lies between the bounds, both included |
| Amounts.PlainToken | expenses/obtener_chat_whashapp.py:88-89 | there is no match exactly when the message holds no digit |
| Amounts.PlainAmount | expenses/obtener_chat_whashapp.py:87-90 | the amount is non-negative, and 0 when there is no match |
| Amounts.PlainAmountValue | expenses/obtener_chat_whashapp.py:88-90 | the value is the first run of digits, with `.dd` after it appended as two more digits |
| Amounts.PlainRoundTrip | expenses/obtener_chat_whashapp.py:88-90 | a whole number written after text without digits, and followed by a space or the end, is read back as itself |
| Amounts.PlainCentsShift | expenses/obtener_chat_whashapp.py:90 | `n.cc` is read as `100 * n + cc`: the dot is deleted rather than taken as a decimal point |
| Amounts.PlainCommaStops | expenses/obtener_chat_whashapp.py:88 | `n,cc` is read as `n`: the comma is not part of the plain pattern |
| Amounts.OcrToken | expenses/obtener_chat_whashapp.py:77-78 | `ocr_numbers` is empty exactly when no position holds `$`, an optional whitespace character and a digit |
| Amounts.OcrAmount | expenses/obtener_chat_whashapp.py:77-81 | the amount is `Verifique` exactly when there is no match; otherwise it is non-negative |
| Amounts.OcrAmountValue | expenses/obtener_chat_whashapp.py:77-79 | the value is the digits of the leading group and the thousands groups, plus two decimals after a comma |
| Amounts.OcrRoundTrip | expenses/obtener_chat_whashapp.py:77-79 | a price printed with thousands dots and optional comma cents, after text without `$`, is read back as its value |
| Amounts.ThousandsValue | expenses/obtener_chat_whashapp.py:79 | deleting the dots of a number printed with thousands separators gives digits worth the number |
| Amounts.OcrExample | expenses/obtener_chat_whashapp.py:77-79 | `$1.234,56` is read as 1234.56 |
| Amounts.OcrUnseparated | expenses/obtener_chat_whashapp.py:77 | without separators only the first three digits are read: `$12345` gives 123 |
| Amounts.OcrNeedsDollar | expenses/obtener_chat_whashapp.py:77-81 | text without `$` is flagged `Verifique`, whatever digits it holds |
| Messages.ProcessMessage | expenses/obtener_chat_whashapp.py:47-92 | the step-by-step procedure returns exactly what `Process` specifies for the tuple |
| Messages.ProcessSome | expenses/obtener_chat_whashapp.py:49-59 | an entry is produced exactly when the date parses, lies in the range and the message is not a sticker or voice note |
| Messages.ProcessKeepsFields | expenses/obtener_chat_whashapp.py:92 | an entry keeps the raw date, time and sender strings |
| Messages.ImageBeatsSkip | expenses/obtener_chat_whashapp.py:65-86 | a message with an image marker gives an `Imagen` entry with its attachment path, even when it also holds `STK-` or `PTT-` |
| Messages.PlainEntry | expenses/obtener_chat_whashapp.py:61-63 | a plain message gives a `Mensaje` entry with an empty path, the message unchanged and the amount read from its text, 0 without digits |
| Messages.MissingAttachment | expenses/obtener_chat_whashapp.py:61-68 | a missing attachment leaves the amount at 0 and the message unchanged, with `Tipo` `Imagen` |
| Messages.VerifiqueIff | expenses/obtener_chat_whashapp.py:68-84 | an entry is flagged `Verifique` exactly when its attachment exists and reading it raised or its text has no `$` amount |
| Messages.Annotated | expenses/obtener_chat_whashapp.py:76-79 | the message is annotated with the text and path exactly when text was extracted, and the amount is then read from that text |
| Messages.PdfNeverFails | expenses/obtener_chat_whashapp.py:35-45 | a present PDF is flagged only when its text has no `$` amount, because the PDF reader never raises |
| Messages.AnnotateKeeps | expenses/obtener_chat_whashapp.py:76 | annotation keeps every substring of the original message |
| Messages.AttachmentKeepsMarker | expenses/obtener_chat_whashapp.py:65-76 | the message of an `Imagen` entry still holds its image marker |
| Messages.AttachmentPathRelative | expenses/obtener_chat_whashapp.py:67 | on POSIX, a first word without a leading `/` is looked up as `expenses/data/<word>` |
| Messages.AttachmentPathWindows | expenses/obtener_chat_whashapp.py:67 | on Windows, a first word without a root or a drive is looked up as `expenses/data\<word>` |
| Messages.AttachmentPathAbsolute | expenses/obtener_chat_whashapp.py:67 | on either platform, a first word starting with `/` is the path itself, and the data directory is ignored |
| Ledger.Collect | expenses/obtener_chat_whashapp.py:94-102 | the frame has at most one row per tuple |
| Ledger.CreateDataframe | expenses/obtener_chat_whashapp.py:94-102 | the loop builds exactly `Collect` of the tuples |
| Ledger.CollectAppend | expenses/obtener_chat_whashapp.py:98-101 | collecting two runs of tuples concatenates their entries |
| Ledger.CollectSound | expenses/obtener_chat_whashapp.py:98-101 | every row is the entry `process_message` returned for some tuple |
| Ledger.CollectComplete | expenses/obtener_chat_whashapp.py:98-101 | every entry `process_message` returns is a row |
| Ledger.CollectOne | expenses/obtener_chat_whashapp.py:99-101 | a single tuple contributes its entry, or nothing when the result is `None` |
| Ledger.EntriesInRange | expenses/obtener_chat_whashapp.py:58-59 | every row's date parses and lies in the range |
| Ledger.ChatLedgerTranscript | expenses/obtener_chat_whashapp.py:141-142 | the frame of a transcript of well-formed lines is the frame of its records |
| Summary.SummarizeSorted | expenses/obtener_chat_whashapp.py:147 | the summary is strictly sorted by sender and has a row for exactly the senders of the frame |
| Summary.SummarizeLookup | expenses/obtener_chat_whashapp.py:146-148 | each sender's row holds the sum of its coerced amounts and the count of its flagged entries; nobody else has a row |
| Summary.SummarizeTotal | expenses/obtener_chat_whashapp.py:146-147 | the totals of all rows add up to the sum of the frame's coerced amounts |
| Summary.AddEntrySorted | expenses/obtener_chat_whashapp.py:147 | adding an entry to the groups keeps them sorted |
| Summary.AddEntryLookup | expenses/obtener_chat_whashapp.py:147 | adding an entry updates its sender's row and no other |
| Summary.StrLessTransitive | expenses/obtener_chat_whashapp.py:147 | Python's string order, by which pandas sorts the group keys, is transitive |
| Summary.StrLessTotal | expenses/obtener_chat_whashapp.py:147 | any two different senders are ordered |
| Summary.CountPositive | expenses/obtener_chat_whashapp.py:147 | a sender's count is positive exactly when one of its entries is counted by the rule |
| Summary.FlaggedMessage | expenses/obtener_chat_whashapp.py:147 | an entry flagged `Verifique` by `process_message` is never counted by the comparison as written |
| Summary.CountAsWrittenMissesFlag | expenses/obtener_chat_whashapp.py:147 | a sender whose only entry is flagged gets a count of 0 as written, and 1 with the corrected count |
| Summary.FlaggedCounted | expenses/obtener_chat_whashapp.py:147-148 | with the count reading `Monto`, every flagged entry shows in its sender's row with a count of at least 1 |
| VCard.Contact.constructor | mail/depurar_mail.py:5 | a new contact dictionary is empty |
| VCard.ParseVCard | mail/depurar_mail.py:3-21 | the method raises exactly when the fold does; otherwise the contacts it returns, read at the end, are the fold's list, aliasing included |
| VCard.ParseFails | mail/depurar_mail.py:14-15 | parsing raises exactly when some line is an `EMAIL` line without a colon |
| VCard.StepFails | mail/depurar_mail.py:9-19 | one line raises exactly when, stripped, it is an `EMAIL` line without a colon |
| VCard.RunFailed | mail/depurar_mail.py:8-15 | once a line has raised, the rest of the file does not matter |
| VCard.ContactsProper | mail/depurar_mail.py:10-19 | every contact returned is non-empty and holds only `Nombre` and `Email` |
| VCard.BeginResets | mail/depurar_mail.py:10-11 | `BEGIN:VCARD` starts an empty dictionary and leaves the list as it reads |
| VCard.NameLine | mail/depurar_mail.py:12-13 | an `FN:` line sets `Nombre` to the rest of the line, replacing any earlier one |
| VCard.EmailLine | mail/depurar_mail.py:14-16 | an `EMAIL:` line sets `Email` to the text after the colon, replacing any earlier one |
| VCard.EmailAnyLine | mail/depurar_mail.py:9-16 | any line that strips to an `EMAIL` line with a colon, `EMAIL;TYPE=INTERNET:…` included, sets `Email` to `split(':')[1]` of the stripped line and changes nothing else |
| VCard.EmailValueOf | mail/depurar_mail.py:15 | `split(':')[1]` of `EMAIL<params>:<e>` is `e`, and is cut at a second colon when one follows |
| VCard.EndAppends | mail/depurar_mail.py:17-19 | `END:VCARD` appends the current dictionary exactly when it is not empty |
| VCard.RawLine | mail/depurar_mail.py:8-9 | a line as the file yields it, with its newline or other surrounding whitespace, has the same effect as its stripped text, so the lemmas about clean lines cover real file lines |
| VCard.OtherLine | mail/depurar_mail.py:9-19 | a line no branch matches changes nothing |
| VCard.CardAppends | mail/depurar_mail.py:3-21 | a well-formed card adds exactly its own contact at the end of the list |
| VCard.NameAfterEnd | mail/depurar_mail.py:12-19 | an `FN:` line after `END:VCARD`, with no `BEGIN:VCARD` between them, rewrites the contact already in the list |
| VCard.EndTwice | mail/depurar_mail.py:17-19 | a second `END:VCARD` appends the same contact again |

## Left out

- Reading the transcript and the vCard file, finding the chat file by glob, the prompts for the date range, the worker thread, the timing messages and the `print` diagnostics are I/O. The model starts from the text and from the list of lines.
- The platform, the file system and the extractors are a parameter of type `Messages.Files`. It says whether `os.path.join` follows POSIX or Windows rules, which paths exist, what EasyOCR reads from an image (or that opening or reading the image raised), and what PyMuPDF extracts from a PDF. EasyOCR and PyMuPDF themselves are foreign code.
- `save_to_excel`, `format_excel` and opening the workbook are output formatting, and are not modelled.
- Messages.WindowsJoin: `ntpath.join` is modelled for a directory without a drive, which is the only kind the script passes. Windows paths are not normalised, and lookups in `Files` are by the exact string, not case-insensitive.
- Floats are exact reals. Rounding in `float` and in the pandas sums is not modelled.
- `Monto` in the frame is `Num(x)` or `Verifique`. pandas' column types are not modelled.
- The summary of an empty frame raises a `KeyError` in pandas, because the frame has no `Monto` column. The model's summary of no entries is empty.
- `\d` is modelled as the ASCII digits. `\s`, `str.isspace` and `strip` use CPython's whitespace list. `lower()` maps ASCII letters only.
- The vCard reader's `for line in file` splitting into lines, and the `main` that builds a data frame from the contacts, are not part of this model.
- Ledger.Collect: the loop is proved equal to the fold. Its relation to the input is stated by `CollectSound`, `CollectComplete`, `CollectAppend` and `CollectOne`, not by a single characterisation of the whole sequence.
- ChatLines.FindAllLines: completeness is proved for transcripts made only of well-formed lines. Continuation lines of multi-line messages are covered by the soundness lemmas, not by a completeness lemma.

## Findings

| source | as written | input that shows it | evidently intended | confidence | as-written member | corrected member |
|---|---|---|---|---|---|---|
| expenses/obtener_chat_whashapp.py:147 | `Verifique Count` counts rows whose `Mensaje` equals `"Verifique"` | one entry of sender `Ana` with message `IMG-1.jpg (archivo adjunto)` and `Monto` `"Verifique"`: her count is 0 | count the rows whose `Monto` is `"Verifique"`, the flag `process_message` sets | not executed | Summary.CountAsWrittenMissesFlag | Summary.FlaggedCounted |
