/**
 * `process_message`: one transcript tuple becomes a ledger entry, or
 * nothing.  The date is parsed and filtered, the message is classified by
 * its marker substrings, and the amount is read from the text or from the
 * attachment the message names.
 *
 * The platform, the file system and the text extractors are a parameter
 * (`Files`): whether paths are joined as on POSIX or as on Windows, which
 * paths exist, what EasyOCR reads from an image (or that opening or reading
 * it raises), and what PyMuPDF extracts from a PDF.  The PDF reader catches
 * its own errors and returns the text read so far, so it never fails.
 */
module Messages {
  import opened Opt
  import opened Strings
  import opened ChatLines
  import opened ChatDates
  import opened Amounts

  /** The directory attachments are looked up in. */
  const DataDir: string := "expenses/data"

  /** The `Tipo` of an entry. */
  datatype Kind = Mensaje | Imagen

  /** The dictionary `process_message` returns, one field per column. */
  datatype Entry = Entry(
    fecha: string,
    hora: string,
    nombre: string,
    mensaje: string,
    monto: Amount,
    tipo: Kind,
    path: string)

  /** Which flavour of `os.path` the script runs with. */
  datatype Platform = Posix | Windows

  /** The platform, the attachments on disk and what the text extractors make of them. */
  datatype Files = Files(
    platform: Platform,
    present: string -> bool,
    imageText: string -> Option<string>,
    pdfText: string -> string)

  /** What the marker substrings make of a message. */
  datatype Class = Attachment | Skipped | Plain

  /** The image markers are looked for first, then the sticker and voice-note ones. */
  function Classify(m: string): Class {
    if Contains(m, "IMG-") || Contains(m, "Comprobante_") then Attachment
    else if Contains(m, "STK-") || Contains(m, "PTT-") then Skipped
    else Plain
  }

  /** `posixpath.join(dir, name)`: an absolute name replaces the directory. */
  function PosixJoin(dir: string, name: string): string {
    if StartsWith(name, "/") then name
    else if dir == [] || EndsWith(dir, "/") then dir + name
    else dir + "/" + name
  }

  /** Both slashes separate path components on Windows. */
  predicate IsWinSep(c: char) {
    c == '/' || c == '\\'
  }

  /** A Windows path with a drive: a drive letter, or a UNC `\\server\share` prefix. */
  predicate HasDrive(p: string) {
    |p| >= 2 && (p[1] == ':' || (IsWinSep(p[0]) && IsWinSep(p[1])))
  }

  /**
   * `ntpath.join(dir, name)` for a directory without a drive: a name with a
   * root or a drive replaces the directory, and a relative one is appended
   * after a backslash unless the directory is empty or ends in a separator.
   */
  function WindowsJoin(dir: string, name: string): string
    requires !HasDrive(dir)
  {
    if (|name| >= 1 && IsWinSep(name[0])) || HasDrive(name) then name
    else if dir == [] || IsWinSep(dir[|dir| - 1]) then dir + name
    else dir + "\\" + name
  }

  /** `os.path.join(dir, name)` on the given platform. */
  function JoinPath(platform: Platform, dir: string, name: string): string
    requires !HasDrive(dir)
  {
    match platform
    case Posix => PosixJoin(dir, name)
    case Windows => WindowsJoin(dir, name)
  }

  /** `os.path.join('expenses/data', message.split(' ')[0])`. */
  function AttachmentPath(platform: Platform, m: string): string {
    assert DataDir[1] == 'x';
    JoinPath(platform, DataDir, Before(m, ' '))
  }

  /** `image_path.lower().endswith('.pdf')`. */
  predicate IsPdf(path: string) {
    EndsWith(Lower(path), ".pdf")
  }

  /** The extracted text, or `None` when reading the image raised. */
  function ExtractText(files: Files, path: string): Option<string> {
    if IsPdf(path) then Some(files.pdfText(path)) else files.imageText(path)
  }

  /** The message once the extracted text and the path are appended. */
  function Annotate(m: string, text: string, path: string): string {
    m + " OCR: " + text + " (Image path: " + path + ")"
  }

  /** The date parses under one of the two formats and lies in the range, both bounds included. */
  predicate InWindow(date: string, start: Date, end: Date) {
    match ParseDate(date)
    case None => false
    case Some(d) => InRange(start, d, end)
  }

  /** `entry_type`. */
  function KindOf(m: string): Kind {
    if Classify(m) == Attachment then Imagen else Mensaje
  }

  /** `image_path`: empty unless the message names an attachment. */
  function PathOf(m: string, files: Files): string {
    if Classify(m) == Attachment then AttachmentPath(files.platform, m) else ""
  }

  /** The text read from the attachment, when there is a file and reading it did not raise. */
  function AttachmentText(m: string, files: Files): Option<string> {
    if Classify(m) == Attachment && files.present(AttachmentPath(files.platform, m)) then ExtractText(files, AttachmentPath(files.platform, m))
    else None
  }

  /** `message`: annotated when text was read from the attachment. */
  function MessageOf(m: string, files: Files): string {
    match AttachmentText(m, files)
    case Some(text) => Annotate(m, text, AttachmentPath(files.platform, m))
    case None => m
  }

  /**
   * `number`: read from the text of a plain message, from the extracted
   * text of an attachment, `Verifique` when reading an existing file
   * raised, and 0 when the file is missing.
   */
  function AmountOf(m: string, files: Files): Amount {
    if Classify(m) != Attachment then Num(PlainAmount(m))
    else if !files.present(AttachmentPath(files.platform, m)) then Num(0.0)
    else
      match ExtractText(files, AttachmentPath(files.platform, m))
      case None => Verifique
      case Some(text) => OcrAmount(text)
  }

  /** The entry an in-range tuple gives, or `None` for a sticker or voice note. */
  function EntryOf(r: RawRecord, files: Files): Option<Entry> {
    if Classify(r.message) == Skipped then None
    else Some(Entry(r.date, r.time, r.sender, MessageOf(r.message, files), AmountOf(r.message, files),
                    KindOf(r.message), PathOf(r.message, files)))
  }

  /** The result of `process_message` on one tuple. */
  function Process(r: RawRecord, start: Date, end: Date, files: Files): Option<Entry> {
    if InWindow(r.date, start, end) then EntryOf(r, files) else None
  }

  /**
   * `process_message` step by step: the two date formats in turn, the range
   * check, then the local `number`, `entry_type`, `image_path` and
   * `message` updated branch by branch.
   */
  method ProcessMessage(dateStr: string, timeStr: string, name: string, message: string,
                        start: Date, end: Date, files: Files)
    returns (result: Option<Entry>)
    ensures result == Process(RawRecord(dateStr, timeStr, name, message), start, end, files)
  {
    ghost var r := RawRecord(dateStr, timeStr, name, message);
    var parsed := ParseFormat(dateStr, true);
    if parsed.None? {
      parsed := ParseFormat(dateStr, false);
      if parsed.None? {
        assert !InWindow(dateStr, start, end);
        return None;
      }
    }
    var messageDate := parsed.value;
    assert ParseDate(dateStr) == Some(messageDate);
    if !InRange(start, messageDate, end) {
      return None;
    }
    assert InWindow(dateStr, start, end);

    var number: Amount := Num(0.0);
    var entryType := Mensaje;
    var imagePath := "";
    var msg := message;

    if Contains(msg, "IMG-") || Contains(msg, "Comprobante_") {
      assert Classify(message) == Attachment;
      entryType := Imagen;
      assert DataDir[1] == 'x';
      imagePath := JoinPath(files.platform, DataDir, Before(msg, ' '));
      if files.present(imagePath) {
        var ocrText: Option<string>;
        if IsPdf(imagePath) {
          ocrText := Some(files.pdfText(imagePath));
        } else {
          ocrText := files.imageText(imagePath);
        }
        assert ocrText == AttachmentText(message, files);
        if ocrText.Some? {
          msg := msg + " OCR: " + ocrText.value + " (Image path: " + imagePath + ")";
          number := OcrAmount(ocrText.value);
        } else {
          number := Verifique;
        }
      } else {
        assert AttachmentText(message, files).None?;
      }
    } else if Contains(msg, "STK-") || Contains(msg, "PTT-") {
      assert Classify(message) == Skipped;
      return None;
    } else {
      assert Classify(message) == Plain;
      if PlainToken(msg).Some? {
        number := Num(PlainAmount(msg));
      }
    }
    assert msg == MessageOf(message, files);
    assert number == AmountOf(message, files);

    return Some(Entry(dateStr, timeStr, name, msg, number, entryType, imagePath));
  }

  // ---------------------------------------------------------------------
  // What `process_message` promises.
  // ---------------------------------------------------------------------

  /**
   * An entry is produced exactly when the date parses under one of the two
   * formats, falls inside the range, both bounds included, and the message
   * is not a sticker or voice note.
   */
  lemma ProcessSome(r: RawRecord, start: Date, end: Date, files: Files)
    ensures Process(r, start, end, files).Some?
            <==> (ParseFormat(r.date, true).Some? || ParseFormat(r.date, false).Some?)
                 && InRange(start, ParseDate(r.date).value, end)
                 && Classify(r.message) != Skipped
  {
  }

  /** An entry keeps the raw date, time and sender strings of its tuple. */
  lemma ProcessKeepsFields(r: RawRecord, start: Date, end: Date, files: Files)
    requires Process(r, start, end, files).Some?
    ensures var e := Process(r, start, end, files).value;
      e.fecha == r.date && e.hora == r.time && e.nombre == r.sender
  {
  }

  /**
   * An image marker wins over a sticker or voice-note marker: such a message
   * is an attachment, and an in-range one gives an `Imagen` entry.
   */
  lemma ImageBeatsSkip(r: RawRecord, start: Date, end: Date, files: Files)
    requires Contains(r.message, "IMG-") || Contains(r.message, "Comprobante_")
    requires ParseDate(r.date).Some? && InRange(start, ParseDate(r.date).value, end)
    ensures Process(r, start, end, files).Some?
    ensures Process(r, start, end, files).value.tipo == Imagen
    ensures Process(r, start, end, files).value.path == AttachmentPath(files.platform, r.message)
  {
  }

  /**
   * A message without markers is a `Mensaje` with an empty path, its text
   * unchanged and its amount read from the text: 0 when it holds no digit.
   */
  lemma PlainEntry(r: RawRecord, start: Date, end: Date, files: Files)
    requires Classify(r.message) == Plain
    requires Process(r, start, end, files).Some?
    ensures var e := Process(r, start, end, files).value;
      e.tipo == Mensaje && e.path == "" && e.mensaje == r.message
      && e.monto == Num(PlainAmount(r.message))
      && (PlainToken(r.message).None? ==> e.monto == Num(0.0))
  {
  }

  /** A missing attachment leaves the amount at 0 and the message unchanged. */
  lemma MissingAttachment(r: RawRecord, start: Date, end: Date, files: Files)
    requires Classify(r.message) == Attachment
    requires !files.present(AttachmentPath(files.platform, r.message))
    requires Process(r, start, end, files).Some?
    ensures var e := Process(r, start, end, files).value;
      e.monto == Num(0.0) && e.mensaje == r.message && e.tipo == Imagen
  {
  }

  /**
   * An attachment entry is flagged `Verifique` exactly when its file exists
   * and either reading it raised or its text holds no `$` amount.
   */
  lemma VerifiqueIff(r: RawRecord, start: Date, end: Date, files: Files)
    requires Process(r, start, end, files).Some?
    ensures var path := AttachmentPath(files.platform, r.message);
      Process(r, start, end, files).value.monto.Verifique?
      <==> Classify(r.message) == Attachment && files.present(path)
           && (ExtractText(files, path).None? || OcrToken(ExtractText(files, path).value).None?)
  {
  }

  /**
   * The message is annotated exactly when text was extracted, and then it
   * carries the text and the path after the original message.
   */
  lemma Annotated(r: RawRecord, start: Date, end: Date, files: Files)
    requires Process(r, start, end, files).Some?
    ensures var e := Process(r, start, end, files).value;
      var path := AttachmentPath(files.platform, r.message);
      if Classify(r.message) == Attachment && files.present(path) && ExtractText(files, path).Some?
      then e.mensaje == Annotate(r.message, ExtractText(files, path).value, path)
           && e.monto == OcrAmount(ExtractText(files, path).value)
      else e.mensaje == r.message
  {
  }

  /** A PDF is never flagged for a read error, only for a text without a `$` amount. */
  lemma PdfNeverFails(r: RawRecord, start: Date, end: Date, files: Files)
    requires Process(r, start, end, files).Some?
    requires Classify(r.message) == Attachment
    requires var path := AttachmentPath(files.platform, r.message); files.present(path) && IsPdf(path)
    ensures Process(r, start, end, files).value.monto.Verifique?
            <==> OcrToken(files.pdfText(AttachmentPath(files.platform, r.message))).None?
  {
  }

  /** Appending the extracted text keeps whatever the message contained. */
  lemma {:induction false} AnnotateKeeps(m: string, text: string, path: string, marker: string)
    requires Contains(m, marker)
    ensures Contains(Annotate(m, text, path), marker)
  {
    var tail := " OCR: " + text + " (Image path: " + path + ")";
    assert Annotate(m, text, path) == m + tail;
    ContainsAppend(m, marker, tail);
  }

  /** The message of an attachment entry still holds its marker. */
  lemma AttachmentKeepsMarker(r: RawRecord, start: Date, end: Date, files: Files)
    requires Process(r, start, end, files).Some?
    requires Process(r, start, end, files).value.tipo == Imagen
    ensures var m := Process(r, start, end, files).value.mensaje;
      Contains(m, "IMG-") || Contains(m, "Comprobante_")
  {
    Annotated(r, start, end, files);
    var path := AttachmentPath(files.platform, r.message);
    assert Classify(r.message) == Attachment;
    if files.present(path) && ExtractText(files, path).Some? {
      var text := ExtractText(files, path).value;
      if Contains(r.message, "IMG-") {
        AnnotateKeeps(r.message, text, path, "IMG-");
      } else {
        AnnotateKeeps(r.message, text, path, "Comprobante_");
      }
    }
  }

  /** On POSIX, a relative first word is looked up inside the data directory. */
  lemma AttachmentPathRelative(m: string)
    requires !StartsWith(Before(m, ' '), "/")
    ensures AttachmentPath(Posix, m) == "expenses/data/" + Before(m, ' ')
  {
    assert !EndsWith(DataDir, "/") by {
      assert DataDir[|DataDir| - 1] == 'a';
    }
  }

  /**
   * On Windows, a first word without a root or a drive is looked up after a
   * backslash; the forward slash inside the directory name is kept.
   */
  lemma AttachmentPathWindows(m: string)
    requires var w := Before(m, ' '); !(|w| >= 1 && IsWinSep(w[0])) && !HasDrive(w)
    ensures AttachmentPath(Windows, m) == "expenses/data\\" + Before(m, ' ')
  {
    assert DataDir[|DataDir| - 1] == 'a';
  }

  /** On either platform, a first word starting with `/` is used as the path itself. */
  lemma AttachmentPathAbsolute(platform: Platform, m: string)
    requires StartsWith(Before(m, ' '), "/")
    ensures AttachmentPath(platform, m) == Before(m, ' ')
  {
    assert Before(m, ' ')[0] == "/"[0];
  }
}
