# Indexer and query runner of a Lucene search demo

This project models the two hand-written drivers of a small Lucene
search application.

- **`IndexFiles.main`** walks a directory listing in order. For each file it
  opens a stream and takes the extension: the file name from its last
  `'.'` on, the dot included, or the empty string when there is no dot. It then picks one of four extraction routes by an exact,
  case-sensitive match: `.html`, `.pdf`, `.docx`, or the plain-text default.
  It builds a document holding a stored `path` field and an unstored
  `contents` field, and adds it to the index writer. The first file that
  cannot be opened ends the run, and the writer is left unclosed.
- **`SearchFilesTest.main` and `doPagingSearch`** read the query file line by
  line. Each line is trimmed the way `String.trim` does it. The run stops at
  the end of the file or at the first line that is empty after trimming.
  Each accepted line is parsed and searched. Up to 100 hits are listed,
  numbered from 1. Each listed hit shows its stored path, or a note that it
  has none. A title line follows only when a title is stored.

The model is split into four modules:

- `JavaLang` (`java_lang.dfy`): `String.lastIndexOf`, `String.trim` and
  `File.getName`.
- `LuceneDocuments` (`lucene_documents.dfy`): documents as field lists,
  `Document.get`, and the stored view a searcher returns.
- `IndexFiles` (`index_files.dfy`): the indexer.
  - The writer is a class whose `docs` field `addDocument` extends.
  - The `.html` route's character loop reads from a class with a read
    position.
  - The per-file loop is a method proved against the function `Documents`.
- `SearchFiles` (`search_files.dfy`): the query runner.
  - The line reader is a class.
  - The query loop and the hit loop are methods, proved against the
    functions `AcceptedQueries`, `Transcript` and `PagingOutput`.

Calls into foreign code are not modelled. Each one becomes a function-typed
field of a parameter record:

- `IndexFiles.Platform` stands for the file system, UTF-8 decoding, Jsoup's
  `text()`, the PDF converter and the DOCX-to-XHTML converter.
- `SearchFiles.Searcher` stands for the index searcher.
- `parse` stands for the query parser.

Console output is a sequence of structured lines (`SearchFiles.OutLine`),
one constructor per `println`.

## Model

| member | source | states |
|---|---|---|
| JavaLang.LastIndexBeforeSpec | IndexFiles.java:70 | the downward scan returns -1 exactly when the char is absent below the bound, and otherwise an index holding the char with no occurrence after it |
| JavaLang.LastIndexOfSpec | IndexFiles.java:70 | `lastIndexOf` is -1 iff the char does not occur; otherwise it is the position of the last occurrence |
| JavaLang.TrimStartSpec | SearchFilesTest.java:73 | leading trim keeps a suffix that does not start with a char <= ' ', and every char it drops is <= ' ' |
| JavaLang.TrimEndSpec | SearchFilesTest.java:73 | trailing trim keeps a prefix that does not end with a char <= ' ', and every char it drops is <= ' ' |
| JavaLang.TrimIsSlice | SearchFilesTest.java:73 | `trim` returns a contiguous slice that neither starts nor ends with a char <= ' ', and everything cut off on both sides is <= ' ' |
| JavaLang.TrimEmptyIffBlank | SearchFilesTest.java:73-74 | a line trims to the empty string iff every char of it is <= ' ' |
| JavaLang.GetNameSpec | IndexFiles.java:69 | `getName` is everything after the last '/': a suffix of the path containing no '/' which, unless it is the whole path, directly follows a '/' |
| JavaLang.GetNameOfJoined | IndexFiles.java:61-69 | `getName` of `docsPath + "/" + name` is `name` when the listed name has no '/' |
| LuceneDocuments.StoredView | SearchFilesTest.java:100 | `searcher.doc` returns only stored fields, never more than the document had |
| LuceneDocuments.StoredViewSpec | SearchFilesTest.java:100 | a field is in what `searcher.doc` returns iff it is a stored field of the indexed document |
| LuceneDocuments.GetStoredView | SearchFilesTest.java:100-107 | `get` on what `searcher.doc` returns agrees with `get` on the indexed document for a name whose fields are all stored, and is null for a name whose fields are all unstored |
| LuceneDocuments.GetSpec | SearchFilesTest.java:101-107 | `doc.get(name)` is null iff no field has that name; otherwise it is the value of the first such field |
| IndexFiles.ExtensionIsLastDotSuffix | IndexFiles.java:69-74 | with no '.' in the name the extension is ""; otherwise a string is the extension iff it is a suffix of the name that starts with '.' and holds no other '.' |
| IndexFiles.ExtensionExamples | IndexFiles.java:70-73 | `a.tar.gz` gives `.gz`, `.bashrc` gives `.bashrc`, `foo.` gives `.`, `README` gives "" |
| IndexFiles.ExtensionIsSuffix | IndexFiles.java:70-73 | for a dot-led string with no other dot, it is the extension iff the name ends with it |
| IndexFiles.RouteByName | IndexFiles.java:81-112 | the html, pdf and docx routes are taken iff the name ends in exactly `.html`, `.pdf` or `.docx`; every other name takes the default route |
| IndexFiles.DispatchExamples | IndexFiles.java:81-112 | a name without '.' takes the default route; `index.HTML` and `notes.txt` take the default route; `page.html` takes the html route |
| IndexFiles.DocumentShape | IndexFiles.java:76-111 | each document has exactly one `path` field, exactly one `contents` field and no `title`; its stored view gives `docsPath + "/" + name` as path and has no stored contents or title |
| IndexFiles.ListedFileRoute | IndexFiles.java:61-112 | a listed file's contents come from the route chosen by the extension of its listed name |
| IndexFiles.DocumentsInListingOrder | IndexFiles.java:59-116 | one document per listed file, and document i is the document for file i |
| IndexFiles.DocumentsStep | IndexFiles.java:60-114 | indexing listed file i after files 0..i-1 appends exactly its document |
| IndexFiles.AnnouncedStep | IndexFiles.java:61-113 | announcing listed file i after files 0..i-1 appends exactly its joined path |
| IndexFiles.OpenablePrefix | IndexFiles.java:62-67 | the files before the returned index all open, and the file at it (if any) does not |
| IndexFiles.OpenablePrefixAt | IndexFiles.java:62-67 | the position of the first unopenable file determines the openable prefix |
| IndexFiles.IndexWriter.AddDocument | IndexFiles.java:114 | the writer's documents grow by exactly the added document |
| IndexFiles.IndexWriter.Close | IndexFiles.java:117 | closing keeps the documents and marks the writer closed |
| IndexFiles.CharReader.Read | IndexFiles.java:87 | `read()` returns the next char and advances, or -1 at the end of the stream without moving |
| IndexFiles.ReadWholeStream | IndexFiles.java:83-90 | the html route's loop accumulates exactly the whole decoded stream |
| IndexFiles.BuildDocument | IndexFiles.java:69-112 | the per-file body builds the document `DocumentFor` specifies: the path field, then the contents of the route the extension selects |
| IndexFiles.AddListedFile | IndexFiles.java:61-114 | processing file i appends its document, so the writer holds the documents of files 0..i in listing order |
| IndexFiles.IndexDirectory | IndexFiles.java:59-117 | with k the first unopenable file (or all files), the writer received exactly the documents of files 0..k-1 in listing order, those files were announced as added, and the writer is closed iff no file failed to open |
| IndexFiles.NoTitleField | IndexFiles.java:78-111 | no document the indexer builds carries a `title` field |
| SearchFiles.PrintHit | SearchFilesTest.java:100-113 | one pass of the hit loop prints the no-path line for a hit without a stored path, else its path line followed by a title line exactly when a title is stored |
| SearchFiles.ListingStep | SearchFilesTest.java:99-113 | listing one more hit appends its lines, numbered by its position plus one |
| SearchFiles.DoPagingSearch | SearchFilesTest.java:89-115 | the printed lines are the total-hits line followed by the listing of the best 100 hits in searcher order |
| SearchFiles.HeadersOfEntry | SearchFilesTest.java:101-113 | every listed hit prints exactly one numbered line: its path line if it has a path, else the no-path line |
| SearchFiles.ListingHeaders | SearchFilesTest.java:99-113 | the listing has one numbered line per hit, and the i-th is numbered i + 1 and shows hit i's path or says it has none |
| SearchFiles.TitleFollowsPath | SearchFilesTest.java:101-113 | a title line appears only directly under the numbered line of a hit with a path |
| SearchFiles.ListingCap | SearchFilesTest.java:93 | a search lists min(100, number of matches) hits; `hitsPerPage` (declared at line 53) plays no part |
| SearchFiles.IndexedHitShowsPathOnly | SearchFilesTest.java:100-108 | a hit whose stored fields come from a document built by `IndexFiles` prints only its path line, never a title line |
| SearchFiles.FirstBlank | SearchFilesTest.java:68-76 | the index of the first line made only of chars <= ' ': every earlier line has another char |
| SearchFiles.QueriesAreLeadingLines | SearchFilesTest.java:68-80 | there are as many queries as lines before the first blank one; query i is line i trimmed, and it is never empty |
| SearchFiles.LinesAfterBlankIgnored | SearchFilesTest.java:73-76 | lines after a blank line never change the queries run |
| SearchFiles.TranscriptSnoc | SearchFilesTest.java:78-80 | one more query adds its "Looking for" line followed by its paging output |
| SearchFiles.AcceptedQueriesFrom | SearchFilesTest.java:69-76 | the queries from line k on are empty if line k is blank, else line k trimmed followed by the queries from line k + 1 |
| SearchFiles.AcceptStep | SearchFilesTest.java:69-78 | reading line k either ends the run with the queries so far being all of them (line k is blank), or makes its trimmed text the next query |
| SearchFiles.AcceptEnd | SearchFilesTest.java:69-71 | at the end of the file the queries so far are all of them |
| SearchFiles.LineReader.ReadLine | SearchFilesTest.java:69 | `readLine()` returns the next line and advances, or null at the end of the file |
| SearchFiles.RunQueries | SearchFilesTest.java:68-85 | the strings parsed are exactly the trimmed lines before the first blank line or the end of the file, in file order, and the output is their transcript; the null-`queryString` and length -1 exits never fire |

## Left out

- Path normalisation by `java.io.File` is not modelled. For example, a
  doubled or trailing '/' in `docsPath` is not collapsed. The stored path is
  the joined string `docsPath + "/" + name`.
- Several failures of foreign code are not modelled:
  - a directory listing that is null;
  - I/O errors while reading;
  - a malformed DOCX file;
  - a query the parser rejects.
  All of these throw in the program. Only the unopenable file, which the
  program handles, is modelled.
- Printing the stack trace of the unopenable file is not modelled. The
  `adding ...` console line is modelled as the list of announced paths.
- The analyzer and its stopword file, tokenisation, index storage, scoring
  and ranking are not modelled. The searcher is given by its ordered matches
  and its stored documents.
- HTML-to-text, PDF-to-text, DOCX-to-XHTML, UTF-8 and default-charset
  decoding, and `getAbsolutePath` are not modelled. They are opaque
  functions of the file's bytes or path.
- Java strings are sequences of 16-bit UTF-16 code units, while a Dafny
  `char` is a Unicode scalar value. A character outside the Basic
  Multilingual Plane is one `char` in the model but two in Java, and
  `CharReader.Read` can return codes above 65535 that Java's `read()` never
  returns. No modelled output depends on this: `trim` and
  `lastIndexOf('.')` only look for chars <= ' ' and '.', so they cut the
  strings at the same places either way.
- Get: Lucene's `Document.get` skips fields that hold no string value, such
  as the reader-valued `contents` field, while every modelled `Field` holds
  a string. `Get` is only applied to the stored view a search hit returns,
  where such fields do not occur.
- Scores are floats and `Query.toString` is not modelled; both are opaque
  values. Console lines are structured values rather than formatted text.
- Closing streams and the index reader is not modelled, because it has no
  observable effect on the modelled output. Only the writer's `close` is
  modelled, because whether it runs is part of the fail-fast behaviour.
- `hitsPerPage` is declared in the source and never read, and the `in` reader
  passed to `doPagingSearch` is never used there. Both appear only as the
  constant `HitsPerPage` and the absence of a parameter.
