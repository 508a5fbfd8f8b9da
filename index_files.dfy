/** The indexer (IndexFiles.main): walk the listing of the documents
    directory in order, open each file, choose a text-extraction route from
    the file's extension, and add one document per file to a freshly created
    index. The first file that cannot be opened ends the run on the spot,
    before the writer is closed. */
module IndexFiles {
  import opened JavaLang
  import opened LuceneDocuments

  newtype Byte = b: int | 0 <= b < 256

  /** Everything the indexer takes from outside its own code: the file
      system and the foreign converters. Each is a black box. */
  datatype Platform = Platform(
    openable: string -> bool,             // new FileInputStream(path) succeeds
    bytes: string -> seq<Byte>,           // the content of the file at path
    absolutePath: string -> string,       // File.getAbsolutePath
    decodeUtf8: seq<Byte> -> string,      // an InputStreamReader with charset "UTF-8"
    decodeDefault: seq<Byte> -> string,   // ByteArrayOutputStream.toString (platform charset)
    htmlText: string -> string,           // Jsoup.parse(html).text()
    pdfText: string -> string,            // PDFTextParser.pdftoText
    docxToXhtml: seq<Byte> -> seq<Byte>)  // XHTMLConverter over an XWPFDocument

  /** The four extraction routes of the switch on the extension. */
  datatype Route = Html | Pdf | Docx | PlainText

  /** The path of a listed file: the directory path, '/', the listed name. */
  function FilePath(docsPath: string, name: string): string {
    docsPath + "/" + name
  }

  /** `e` is a suffix of `s` that starts with '.' and has no other '.'. */
  predicate IsDotSuffix(e: string, s: string) {
    1 <= |e| <= |s| && e == s[|s| - |e|..] && e[0] == '.' &&
    forall j :: 1 <= j < |e| ==> e[j] != '.'
  }

  /** The extension: from the last '.' to the end, or "" without a '.'. */
  function Extension(fileName: string): string {
    var index := LastIndexOf(fileName, '.');
    if index != -1 then fileName[index..] else ""
  }

  /** Without a '.', the extension is empty. With one, a string is the
      extension exactly when it is a suffix that starts with '.' and holds no
      other '.': the suffix from the last '.'. */
  lemma ExtensionIsLastDotSuffix(fileName: string, e: string)
    ensures '.' !in fileName ==> Extension(fileName) == ""
    ensures '.' in fileName ==> (Extension(fileName) == e <==> IsDotSuffix(e, fileName))
  {
    LastIndexOfSpec(fileName, '.');
    if '.' in fileName {
      var x := Extension(fileName);
      assert IsDotSuffix(x, fileName);
      if IsDotSuffix(e, fileName) {
        assert |x| == |e|;
      }
    }
  }

  /** Names whose extension is taken from the last of several dots, a
      leading dot, or a trailing dot. */
  lemma ExtensionExamples()
    ensures Extension("a.tar.gz") == ".gz"
    ensures Extension(".bashrc") == ".bashrc"
    ensures Extension("foo.") == "."
    ensures Extension("README") == ""
  {
    ExtensionIsSuffix("a.tar.gz", ".gz");
    ExtensionIsSuffix(".bashrc", ".bashrc");
    ExtensionIsSuffix("foo.", ".");
    ExtensionIsLastDotSuffix("README", "");
  }

  /** The switch on the extension string: exact, case-sensitive matching. */
  function RouteOf(ext: string): Route {
    if ext == ".html" then Html
    else if ext == ".pdf" then Pdf
    else if ext == ".docx" then Docx
    else PlainText
  }

  predicate EndsWith(s: string, suffix: string) {
    |suffix| <= |s| && s[|s| - |suffix|..] == suffix
  }

  /** For a candidate extension such as ".html", the name's extension is that
      candidate exactly when the name ends with it. */
  lemma ExtensionIsSuffix(fileName: string, x: string)
    requires 1 <= |x| && x[0] == '.' && forall j :: 1 <= j < |x| ==> x[j] != '.'
    ensures Extension(fileName) == x <==> EndsWith(fileName, x)
  {
    if EndsWith(fileName, x) {
      assert fileName[|fileName| - |x|] == '.';
      ExtensionIsLastDotSuffix(fileName, x);
    }
    ExtensionIsLastDotSuffix(fileName, x);
  }

  /** A file takes a special route exactly when its name ends in that
      extension, letter case included; every other name is read as plain
      text. */
  lemma RouteByName(fileName: string)
    ensures RouteOf(Extension(fileName)) == Html <==> EndsWith(fileName, ".html")
    ensures RouteOf(Extension(fileName)) == Pdf <==> EndsWith(fileName, ".pdf")
    ensures RouteOf(Extension(fileName)) == Docx <==> EndsWith(fileName, ".docx")
    ensures RouteOf(Extension(fileName)) == PlainText <==>
      !EndsWith(fileName, ".html") && !EndsWith(fileName, ".pdf") && !EndsWith(fileName, ".docx")
  {
    ExtensionIsSuffix(fileName, ".html");
    ExtensionIsSuffix(fileName, ".pdf");
    ExtensionIsSuffix(fileName, ".docx");
  }

  /** Dispatch ignores near misses: upper case and other extensions go to the
      plain-text route, and so does a name without a '.'. */
  lemma DispatchExamples(fileName: string)
    requires '.' !in fileName
    ensures RouteOf(Extension(fileName)) == PlainText
    ensures RouteOf(Extension("index.HTML")) == PlainText
    ensures RouteOf(Extension("notes.txt")) == PlainText
    ensures RouteOf(Extension("page.html")) == Html
  {
    ExtensionIsLastDotSuffix(fileName, "");
    ExtensionIsSuffix("index.HTML", ".HTML");
    ExtensionIsSuffix("notes.txt", ".txt");
    ExtensionIsSuffix("page.html", ".html");
  }

  /** The text given to the index as "contents" on each route. */
  function ExtractedText(route: Route, path: string, p: Platform): string {
    match route
    case Html => p.htmlText(p.decodeUtf8(p.bytes(path)))
    case Pdf => p.pdfText(p.absolutePath(path))
    case Docx => p.htmlText(p.decodeDefault(p.docxToXhtml(p.bytes(path))))
    case PlainText => p.decodeUtf8(p.bytes(path))
  }

  /** StringField("path", path, Store.YES): stored, one untokenized term. */
  function PathField(path: string): Field {
    Field("path", path, true, false)
  }

  /** TextField("contents", reader): tokenized, not stored. */
  function ContentsField(text: string): Field {
    Field("contents", text, false, true)
  }

  /** The document the indexer builds for the file at `path`. */
  function DocumentFor(path: string, p: Platform): Document {
    var route := RouteOf(Extension(GetName(path)));
    Document([PathField(path), ContentsField(ExtractedText(route, path, p))])
  }

  /** Each document has one stored "path" equal to the joined path, one
      unstored "contents", and no "title" at all. */
  lemma DocumentShape(docsPath: string, name: string, p: Platform)
    ensures var d := DocumentFor(FilePath(docsPath, name), p);
            CountNamed(d.fields, "path") == 1 &&
            CountNamed(d.fields, "contents") == 1 &&
            CountNamed(d.fields, "title") == 0 &&
            Get(StoredView(d), "path") == Some(docsPath + "/" + name) &&
            Get(StoredView(d), "contents") == None &&
            Get(StoredView(d), "title") == None
  {
  }

  /** A listed name has no '/', so File.getName gives it back and the route
      is chosen by the extension of the listed name itself. */
  lemma ListedFileRoute(docsPath: string, name: string, p: Platform)
    requires '/' !in name
    ensures DocumentFor(FilePath(docsPath, name), p).fields[1] ==
            ContentsField(ExtractedText(RouteOf(Extension(name)), FilePath(docsPath, name), p))
  {
    GetNameOfJoined(docsPath, name);
  }

  /** `f` applied to each element, in order. */
  function MapSeq<A, B>(xs: seq<A>, f: A -> B): (ys: seq<B>)
    ensures |ys| == |xs|
  {
    if xs == [] then [] else [f(xs[0])] + MapSeq(xs[1..], f)
  }

  lemma {:induction false} MapSeqAt<A, B>(xs: seq<A>, f: A -> B, i: nat)
    requires i < |xs|
    ensures MapSeq(xs, f)[i] == f(xs[i])
  {
    if i > 0 {
      MapSeqAt(xs[1..], f, i - 1);
    }
  }

  lemma {:induction false} MapSeqSnoc<A, B>(xs: seq<A>, x: A, f: A -> B)
    ensures MapSeq(xs + [x], f) == MapSeq(xs, f) + [f(x)]
  {
    if xs != [] {
      assert (xs + [x])[1..] == xs[1..] + [x];
      MapSeqSnoc(xs[1..], x, f);
    }
  }

  /** The documents for a run of listed names, in listing order. */
  function Documents(docsPath: string, names: seq<string>, p: Platform): seq<Document> {
    MapSeq(names, name => DocumentFor(FilePath(docsPath, name), p))
  }

  /** One document per name, the i-th for the i-th name. */
  lemma DocumentsInListingOrder(docsPath: string, names: seq<string>, p: Platform)
    ensures |Documents(docsPath, names, p)| == |names|
    ensures forall i :: 0 <= i < |names| ==>
      Documents(docsPath, names, p)[i] == DocumentFor(FilePath(docsPath, names[i]), p)
  {
    forall i | 0 <= i < |names|
      ensures Documents(docsPath, names, p)[i] == DocumentFor(FilePath(docsPath, names[i]), p)
    {
      MapSeqAt(names, name => DocumentFor(FilePath(docsPath, name), p), i);
    }
  }

  /** How many leading files of the listing can be opened. */
  function OpenablePrefix(docsPath: string, files: seq<string>, p: Platform): (k: nat)
    ensures k <= |files|
    ensures forall j :: 0 <= j < k ==> p.openable(FilePath(docsPath, files[j]))
    ensures k < |files| ==> !p.openable(FilePath(docsPath, files[k]))
  {
    if files == [] || !p.openable(FilePath(docsPath, files[0])) then 0
    else 1 + OpenablePrefix(docsPath, files[1..], p)
  }

  /** The index being written. OpenMode.CREATE starts it empty whatever was
      at the index location before. */
  class IndexWriter {
    var docs: seq<Document>
    var closed: bool

    constructor ()
      ensures docs == [] && !closed
    {
      docs := [];
      closed := false;
    }

    method AddDocument(d: Document)
      requires !closed
      modifies this
      ensures docs == old(docs) + [d] && !closed
    {
      docs := docs + [d];
    }

    method Close()
      modifies this
      ensures closed && docs == old(docs)
    {
      closed := true;
    }
  }

  /** A reader of decoded characters: read() yields the next char's code,
      or -1 at the end of the stream. */
  class CharReader {
    const chars: seq<char>
    var pos: nat

    ghost predicate Valid()
      reads this
    {
      pos <= |chars|
    }

    constructor (chars: seq<char>)
      ensures this.chars == chars && pos == 0 && Valid()
    {
      this.chars := chars;
      pos := 0;
    }

    method Read() returns (c: int)
      requires Valid()
      modifies this
      ensures Valid()
      ensures old(pos) == |chars| ==> c == -1 && pos == old(pos)
      ensures old(pos) < |chars| ==> c == chars[old(pos)] as int && pos == old(pos) + 1
    {
      if pos == |chars| {
        c := -1;
      } else {
        c := chars[pos] as int;
        pos := pos + 1;
      }
    }
  }

  /** The html route's read loop: one char at a time until read() gives -1.
      The string built is the whole decoded content. */
  method ReadWholeStream(decoded: seq<char>) returns (html: string)
    ensures html == decoded
  {
    var fiss := new CharReader(decoded);
    html := "";
    while true
      invariant fiss.Valid() && fiss.chars == decoded
      invariant html == decoded[..fiss.pos]
      decreases |decoded| - fiss.pos
    {
      var content := fiss.Read();
      if content == -1 {
        break;
      }
      html := html + [content as char];
    }
  }

  /** The body of the indexing loop once the file is open: compute the
      extension, start the document with its path, and add the contents
      produced by the route the extension selects. */
  method BuildDocument(file: string, p: Platform) returns (doc: Document)
    ensures doc == DocumentFor(file, p)
  {
    var fileName := GetName(file);
    var extension := Extension(fileName);
    var fields := [PathField(file)];
    if extension == ".html" {
      var html := ReadWholeStream(p.decodeUtf8(p.bytes(file)));
      var plainText := p.htmlText(html);
      fields := fields + [ContentsField(plainText)];
    } else if extension == ".pdf" {
      fields := fields + [ContentsField(p.pdfText(p.absolutePath(file)))];
    } else if extension == ".docx" {
      var convertedText := p.htmlText(p.decodeDefault(p.docxToXhtml(p.bytes(file))));
      fields := fields + [ContentsField(convertedText)];
    } else {
      fields := fields + [ContentsField(p.decodeUtf8(p.bytes(file)))];
    }
    doc := Document(fields);
  }

  /** One pass of the indexing loop after the file has been opened: build
      the file's document and hand it to the writer. */
  method AddListedFile(writer: IndexWriter, docsPath: string, files: seq<string>, i: nat, p: Platform)
    requires i < |files| && !writer.closed
    requires writer.docs == Documents(docsPath, files[..i], p)
    modifies writer
    ensures !writer.closed && writer.docs == Documents(docsPath, files[..i + 1], p)
  {
    var doc := BuildDocument(FilePath(docsPath, files[i]), p);
    DocumentsStep(docsPath, files, i, p);
    writer.AddDocument(doc);
  }

  /** Announcing the listed file i after files 0..i-1 appends its path. */
  lemma AnnouncedStep(docsPath: string, files: seq<string>, i: nat)
    requires i < |files|
    ensures MapSeq(files[..i + 1], name => FilePath(docsPath, name)) ==
            MapSeq(files[..i], name => FilePath(docsPath, name)) + [FilePath(docsPath, files[i])]
  {
    assert files[..i + 1] == files[..i] + [files[i]];
    MapSeqSnoc(files[..i], files[i], name => FilePath(docsPath, name));
  }

  /** Indexing the listed file i after files 0..i-1 appends its document. */
  lemma DocumentsStep(docsPath: string, files: seq<string>, i: nat, p: Platform)
    requires i < |files|
    ensures Documents(docsPath, files[..i + 1], p) ==
            Documents(docsPath, files[..i], p) + [DocumentFor(FilePath(docsPath, files[i]), p)]
  {
    assert files[..i + 1] == files[..i] + [files[i]];
    MapSeqSnoc(files[..i], files[i], name => DocumentFor(FilePath(docsPath, name), p));
  }

  /** IndexFiles.main from the directory listing on: the documents the
      writer received, the files announced on the console as added, and
      whether the writer was closed. */
  method IndexDirectory(docsPath: string, files: seq<string>, p: Platform)
    returns (added: seq<Document>, announced: seq<string>, closed: bool)
    ensures var k := OpenablePrefix(docsPath, files, p);
            added == Documents(docsPath, files[..k], p) &&
            announced == MapSeq(files[..k], name => FilePath(docsPath, name)) &&
            (closed <==> k == |files|)
  {
    var writer := new IndexWriter();
    announced := [];
    var i := 0;
    while i < |files|
      invariant 0 <= i <= |files|
      invariant i <= OpenablePrefix(docsPath, files, p)
      invariant writer.docs == Documents(docsPath, files[..i], p) && !writer.closed
      invariant announced == MapSeq(files[..i], name => FilePath(docsPath, name))
    {
      var fileString := files[i];
      var file := docsPath + "/" + fileString;
      if !p.openable(file) {
        // The stack trace is printed and main returns: the writer stays open.
        assert OpenablePrefix(docsPath, files, p) == i by {
          OpenablePrefixAt(docsPath, files, p, i);
        }
        added, closed := writer.docs, writer.closed;
        return;
      }
      // "adding " + file is printed, then the document is added.
      AnnouncedStep(docsPath, files, i);
      announced := announced + [file];
      AddListedFile(writer, docsPath, files, i, p);
      i := i + 1;
    }
    assert files[..i] == files;
    assert OpenablePrefix(docsPath, files, p) == |files| by {
      OpenablePrefixAt(docsPath, files, p, |files|);
    }
    writer.Close();
    added, closed := writer.docs, writer.closed;
  }

  /** The openable prefix is pinned down by where the first unopenable file
      sits. */
  lemma OpenablePrefixAt(docsPath: string, files: seq<string>, p: Platform, k: nat)
    requires k <= |files|
    requires forall j :: 0 <= j < k ==> p.openable(FilePath(docsPath, files[j]))
    requires k < |files| ==> !p.openable(FilePath(docsPath, files[k]))
    ensures OpenablePrefix(docsPath, files, p) == k
  {
  }

  /** The documents of a run never carry a "title" field. */
  lemma NoTitleField(docsPath: string, names: seq<string>, p: Platform)
    ensures forall d :: d in Documents(docsPath, names, p) ==> CountNamed(d.fields, "title") == 0
  {
    DocumentsInListingOrder(docsPath, names, p);
    forall d | d in Documents(docsPath, names, p) ensures CountNamed(d.fields, "title") == 0 {
      var i :| 0 <= i < |names| && Documents(docsPath, names, p)[i] == d;
      DocumentShape(docsPath, names[i], p);
    }
  }
}
