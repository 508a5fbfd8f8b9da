/** The shape of a search-library document as the two programs use it: an
    ordered list of named fields. The index itself (tokenising, inverted
    lists, scoring) is not modelled; only which fields a document carries and
    which of them are stored for retrieval. */
module LuceneDocuments {
  import opened JavaLang

  /** A field: `stored` fields come back verbatim from a search hit;
      `tokenized` fields are analysed into terms, untokenized ones are
      indexed as one term (StringField). */
  datatype Field = Field(name: string, value: string, stored: bool, tokenized: bool)

  datatype Document = Document(fields: seq<Field>)

  /** The number of fields of a document with the given name. */
  function CountNamed(fields: seq<Field>, name: string): (n: nat)
    ensures n <= |fields|
    ensures n == 0 <==> forall i :: 0 <= i < |fields| ==> fields[i].name != name
  {
    if fields == [] then 0
    else (if fields[0].name == name then 1 else 0) + CountNamed(fields[1..], name)
  }

  /** What a search hit gives back for a document: its stored fields only,
      in their original order. */
  function StoredView(d: Document): (s: Document)
    ensures forall i :: 0 <= i < |s.fields| ==> s.fields[i].stored
    ensures |s.fields| <= |d.fields|
    decreases |d.fields|
  {
    if d.fields == [] then d
    else
      var rest := StoredView(Document(d.fields[1..]));
      if d.fields[0].stored then Document([d.fields[0]] + rest.fields) else rest
  }

  /** The stored view keeps exactly the stored fields: a field is in it iff
      it is a stored field of the document. */
  lemma {:induction false} StoredViewSpec(d: Document)
    ensures forall f :: f in StoredView(d).fields <==> f in d.fields && f.stored
    decreases |d.fields|
  {
    if d.fields != [] {
      var rest := Document(d.fields[1..]);
      StoredViewSpec(rest);
      assert d.fields == [d.fields[0]] + rest.fields;
    }
  }

  /** The stored view keeps the stored fields in their order: when every
      field named `name` is stored, get gives the same answer on the stored
      view as on the document itself, and when none is, it gives null. */
  lemma {:induction false} GetStoredView(d: Document, name: string)
    ensures (forall i :: 0 <= i < |d.fields| && d.fields[i].name == name ==> d.fields[i].stored) ==>
            Get(StoredView(d), name) == Get(d, name)
    ensures (forall i :: 0 <= i < |d.fields| && d.fields[i].name == name ==> !d.fields[i].stored) ==>
            Get(StoredView(d), name) == None
    decreases |d.fields|
  {
    if d.fields != [] {
      var rest := Document(d.fields[1..]);
      GetStoredView(rest, name);
      forall i | 0 <= i < |rest.fields|
        ensures rest.fields[i] == d.fields[i + 1]
      {
      }
    }
  }

  /** Document.get(name): the value of the first field with that name, or
      null when there is none. */
  function Get(d: Document, name: string): Option<string>
    decreases |d.fields|
  {
    if d.fields == [] then None
    else if d.fields[0].name == name then Some(d.fields[0].value)
    else Get(Document(d.fields[1..]), name)
  }

  /** get returns null exactly when no field has the name, and otherwise the
      value of the first field that has it. */
  lemma {:induction false} GetSpec(d: Document, name: string)
    ensures Get(d, name) == None <==> CountNamed(d.fields, name) == 0
    ensures Get(d, name).Some? ==>
      (exists i :: 0 <= i < |d.fields| && d.fields[i].name == name &&
                   d.fields[i].value == Get(d, name).value && CountNamed(d.fields[..i], name) == 0)
    decreases |d.fields|
  {
    if d.fields != [] {
      if d.fields[0].name == name {
        assert d.fields[..0] == [];
      } else {
        var rest := Document(d.fields[1..]);
        GetSpec(rest, name);
        if Get(d, name).Some? {
          var j :| 0 <= j < |rest.fields| && rest.fields[j].name == name &&
            rest.fields[j].value == Get(rest, name).value && CountNamed(rest.fields[..j], name) == 0;
          assert d.fields[..j + 1][1..] == rest.fields[..j];
          assert d.fields[j + 1] == rest.fields[j];
        }
      }
    }
  }
}
