// Model of the knowledge-base page's document operations: reading a tag
// list typed as comma-separated text, the search filter over the active
// library, uploading, editing, re-tagging and deleting a document, and the
// two tag shortcuts of the tag editor.  Every handler computes a new list;
// upload, edit, re-tag and delete start from the filtered view, so documents
// hidden by the search are dropped from the library they write back.

module KnowledgeBase {
  import opened Common
  import opened Text

  /** A document card. */
  datatype Doc = Doc(
    id: int,
    name: string,
    category: string,
    tags: seq<string>,
    date: string,
    library: string,
    views: int,
    size: string,
    kind: string)

  /** The four libraries' document lists. */
  datatype Libraries = Libraries(allStaff: seq<Doc>, compliance: seq<Doc>, business: seq<Doc>, branch: seq<Doc>)

  const AllStaff := "all"
  const Compliance := "compliance"
  const Business := "business"
  const Branch := "branch"

  predicate KnownLibrary(libId: string) {
    libId == AllStaff || libId == Compliance || libId == Business || libId == Branch
  }

  /** `getDocsForLibrary`: an unknown id falls back to the all-staff documents. */
  function DocsFor(libs: Libraries, libId: string): seq<Doc> {
    if libId == Compliance then libs.compliance
    else if libId == Business then libs.business
    else if libId == Branch then libs.branch
    else libs.allStaff
  }

  /** `setDocumentsByLibrary`: an unknown active id writes nothing. */
  function WithDocs(libs: Libraries, active: string, docs: seq<Doc>): Libraries {
    if active == AllStaff then libs.(allStaff := docs)
    else if active == Compliance then libs.(compliance := docs)
    else if active == Business then libs.(business := docs)
    else if active == Branch then libs.(branch := docs)
    else libs
  }

  /**
   * Reading a known library after writing it gives what was written, and
   * every other library is untouched; an unknown id reads the all-staff
   * documents and writes nothing.
   */
  lemma LibraryLookup(libs: Libraries, active: string, other: string, docs: seq<Doc>)
    ensures KnownLibrary(active) ==> DocsFor(WithDocs(libs, active, docs), active) == docs
    ensures KnownLibrary(active) && KnownLibrary(other) && other != active ==>
      DocsFor(WithDocs(libs, active, docs), other) == DocsFor(libs, other)
    ensures !KnownLibrary(active) ==> DocsFor(libs, active) == libs.allStaff && WithDocs(libs, active, docs) == libs
  {
  }

  // ---------------------------------------------------------------------------
  // Tag text
  // ---------------------------------------------------------------------------

  /** `tags.split(',').map(t => t.trim())`. */
  function TagList(s: string): seq<string> {
    Map((t: string) => Trim(JsTrim, t), Split(s, ','))
  }

  predicate NonEmpty(t: string) { t != "" }

  /** `.filter(t => t)` after `TagList`: the tags of a tag text. */
  function ParseTags(s: string): seq<string> {
    FilterSeq(NonEmpty, TagList(s))
  }

  /** A piece of tag text as `TagList` leaves it: no comma, and empty or trimmed at both ends. */
  predicate TagPiece(t: string) {
    ',' !in t && (t == "" || (!IsTrimmed(JsTrim, t[0]) && !IsTrimmed(JsTrim, t[|t| - 1])))
  }

  /** A tag as it can appear on a document. */
  predicate CleanTag(t: string) {
    t != "" && TagPiece(t)
  }

  /** Every piece of a tag list is a `TagPiece`, so every parsed tag is a `CleanTag`. */
  lemma TagListPieces(s: string)
    ensures forall k :: 0 <= k < |TagList(s)| ==> TagPiece(TagList(s)[k])
    ensures forall k :: 0 <= k < |ParseTags(s)| ==> CleanTag(ParseTags(s)[k])
  {
    var parts := Split(s, ',');
    forall k | 0 <= k < |parts|
      ensures TagPiece(Trim(JsTrim, parts[k]))
    {
      var i, j :| 0 <= i <= j <= |parts[k]| && Trim(JsTrim, parts[k]) == parts[k][i..j];
      assert forall c :: c in parts[k][i..j] ==> c in parts[k];
    }
  }

  /** Trimming ignores a leading space. */
  lemma TrimSpace(x: string)
    ensures Trim(JsTrim, " " + x) == Trim(JsTrim, x)
  {
    TrimSkipsPrefix(JsTrim, " ", x);
  }

  /** A piece is its own trim. */
  lemma TrimPiece(t: string)
    requires TagPiece(t)
    ensures Trim(JsTrim, t) == t
  {
    assert TrimStart(JsTrim, t) == t;
    assert TrimEnd(JsTrim, t) == t;
  }

  /** A leading space does not change the tag list. */
  lemma TagListSpace(x: string)
    ensures TagList(" " + x) == TagList(x)
  {
    var s := " " + x;
    assert s[1..] == x;
    var rest := Split(x, ',');
    var ps := Split(s, ',');
    assert ps == [[' '] + rest[0]] + rest[1..];
    forall k | 0 <= k < |rest|
      ensures Trim(JsTrim, ps[k]) == Trim(JsTrim, rest[k])
    {
      if k == 0 {
        TrimSpace(rest[0]);
      } else {
        assert ps[k] == rest[k];
      }
    }
  }

  /** A first piece before a comma is the first element of the tag list. */
  lemma TagListCons(a: string, b: string)
    requires ',' !in a
    ensures TagList(a + "," + b) == [Trim(JsTrim, a)] + TagList(b)
  {
    SplitPrefix(a, b, ',');
  }

  /** A piece, a comma, a space and more text: the piece, then the tags of the rest. */
  lemma TagListConsSpace(a: string, rest: string)
    requires TagPiece(a)
    ensures TagList(a + "," + (" " + rest)) == [a] + TagList(rest)
  {
    TagListCons(a, " " + rest);
    TagListSpace(rest);
    TrimPiece(a);
  }

  /** Joining pieces with `", "` and reading the text back gives the pieces. */
  lemma {:induction false} TagListOfJoin(ts: seq<string>)
    requires |ts| >= 1
    requires forall k :: 0 <= k < |ts| ==> TagPiece(ts[k])
    ensures TagList(Join(ts, ", ")) == ts
    decreases |ts|
  {
    if |ts| == 1 {
      SplitNoSep(ts[0], ',');
      TrimPiece(ts[0]);
    } else {
      var a, rest := ts[0], Join(ts[1..], ", ");
      assert Join(ts, ", ") == a + "," + (" " + rest);
      TagListConsSpace(a, rest);
      TagListOfJoin(ts[1..]);
      assert [a] + ts[1..] == ts;
    }
  }

  /** Reading tag text made by joining pieces keeps the non-empty pieces, in order. */
  lemma ParseJoin(ts: seq<string>)
    requires forall k :: 0 <= k < |ts| ==> TagPiece(ts[k])
    ensures ParseTags(Join(ts, ", ")) == FilterSeq(NonEmpty, ts)
  {
    if ts == [] {
      assert Split("", ',') == [""];
      assert TagList("") == [""];
      assert FilterSeq(NonEmpty, [""]) == [] + FilterSeq(NonEmpty, [""][1..]);
    } else {
      TagListOfJoin(ts);
    }
  }

  /**
   * `handleEdit` shows a document's tags as `tags.join(', ')`; saving that
   * text unchanged gives the same tags back.
   */
  lemma EditedTagsRoundTrip(tags: seq<string>)
    requires forall k :: 0 <= k < |tags| ==> CleanTag(tags[k])
    ensures ParseTags(Join(tags, ", ")) == tags
  {
    ParseJoin(tags);
    FilterSeqAll(NonEmpty, tags);
  }

  /** The common-tag shortcut: the tag is appended unless a trimmed piece already equals it. */
  function AddCommonTag(text: string, tag: string): string {
    var tags := if text != "" then TagList(text) else [];
    if tag in tags then text else Join(tags + [tag], ", ")
  }

  /**
   * A present tag leaves the text as it is; otherwise the text reads as its
   * old tags followed by the new one.
   */
  lemma AddCommonTagAppends(text: string, tag: string)
    requires CleanTag(tag)
    ensures text != "" && tag in TagList(text) ==> AddCommonTag(text, tag) == text
    ensures (text == "" || tag !in TagList(text)) ==> ParseTags(AddCommonTag(text, tag)) == ParseTags(text) + [tag]
  {
    if text == "" {
      assert Split("", ',') == [""];
      assert TagList("") == [""];
      assert FilterSeq(NonEmpty, [""]) == [] + FilterSeq(NonEmpty, [""][1..]);
      ParseJoin([tag]);
      assert FilterSeq(NonEmpty, [tag]) == [tag] + FilterSeq(NonEmpty, [tag][1..]);
    } else if tag !in TagList(text) {
      var tags := TagList(text);
      TagListPieces(text);
      ParseJoin(tags + [tag]);
      FilterSeqSnoc(NonEmpty, tags, tag);
    }
  }

  /** The tag-removal shortcut: every trimmed piece equal to the tag is dropped. */
  function RemoveTag(text: string, tag: string): string {
    Join(FilterSeq((t: string) => t != tag, TagList(text)), ", ")
  }

  /** Removing a tag reads as the old tags without it, in order. */
  lemma RemoveTagDrops(text: string, tag: string)
    ensures ParseTags(RemoveTag(text, tag)) == FilterSeq((t: string) => t != tag, ParseTags(text))
    ensures tag !in ParseTags(RemoveTag(text, tag))
  {
    var other := (t: string) => t != tag;
    var tags := TagList(text);
    var kept := FilterSeq(other, tags);
    TagListPieces(text);
    ParseJoin(kept);
    FilterSeqCommute(NonEmpty, other, tags);
  }

  /** Two filters commute. */
  lemma {:induction false} FilterSeqCommute<T>(p: T -> bool, q: T -> bool, s: seq<T>)
    ensures FilterSeq(p, FilterSeq(q, s)) == FilterSeq(q, FilterSeq(p, s))
    decreases |s|
  {
    if s != [] {
      FilterSeqCommute(p, q, s[1..]);
      var x := s[0];
      var qx := if q(x) then [x] else [];
      var px := if p(x) then [x] else [];
      FilterSeqAppend(p, qx, FilterSeq(q, s[1..]));
      FilterSeqAppend(q, px, FilterSeq(p, s[1..]));
      assert [x][1..] == [];
      if q(x) {
        assert FilterSeq(p, qx) == px + FilterSeq(p, []);
      }
      if p(x) {
        assert FilterSeq(q, px) == qx + FilterSeq(q, []);
      }
    }
  }

  // ---------------------------------------------------------------------------
  // Search
  // ---------------------------------------------------------------------------

  /** The search text has nothing but whitespace. */
  predicate Blank(query: string) {
    Trim(JsTrim, query) == ""
  }

  /** A document matches when the lower-cased query occurs in its name, its category or one of its tags. */
  predicate Matches(query: string, doc: Doc) {
    var q := Lower(query);
    Contains(Lower(doc.name), q) || Contains(Lower(doc.category), q) ||
    exists k :: 0 <= k < |doc.tags| && Contains(Lower(doc.tags[k]), q)
  }

  /** `currentDocs`: the active library's documents that pass the search. */
  function Visible(libs: Libraries, active: string, query: string): seq<Doc> {
    var docs := DocsFor(libs, active);
    if Blank(query) then docs else FilterSeq((d: Doc) => Matches(query, d), docs)
  }

  /** A blank search keeps every document; otherwise a document is shown exactly when it matches. */
  lemma SearchFilter(libs: Libraries, active: string, query: string)
    ensures Blank(query) ==> Visible(libs, active, query) == DocsFor(libs, active)
    ensures !Blank(query) ==>
      (forall d :: d in Visible(libs, active, query) <==> d in DocsFor(libs, active) && Matches(query, d))
  {
    if !Blank(query) {
      var docs := DocsFor(libs, active);
      forall d | d in docs && Matches(query, d)
        ensures d in Visible(libs, active, query)
      {
        var k :| 0 <= k < |docs| && docs[k] == d;
      }
    }
  }

  // ---------------------------------------------------------------------------
  // Upload, edit, re-tag, delete
  // ---------------------------------------------------------------------------

  /** The upload and edit form. */
  datatype Form = Form(name: string, category: string, tags: string)

  /** A chosen file: its name and its size as the page formats it. */
  datatype UploadFile = UploadFile(fileName: string, sizeText: string)

  /** The last dot-separated part of the file name, or `pdf` when there is no file or that part is empty. */
  function FileKind(file: Option<UploadFile>): (r: string)
    ensures r != ""
  {
    if file.None? then "pdf"
    else
      var parts := Split(file.value.fileName, '.');
      var last := parts[|parts| - 1];
      if last == "" then "pdf" else last
  }

  /** The new document: id and date come from the clock, views start at 0. */
  function NewDoc(active: string, form: Form, file: Option<UploadFile>, now: int, today: string): Doc {
    Doc(now, form.name, form.category, ParseTags(form.tags), today, active, 0,
        if file.Some? then file.value.sizeText else "1.0 MB", FileKind(file))
  }

  /** `handleUpload`: a missing name or category changes nothing; otherwise the new document goes in front of the view. */
  function Upload(libs: Libraries, active: string, query: string, form: Form, file: Option<UploadFile>, now: int, today: string): Libraries {
    if form.name == "" || form.category == "" then libs
    else WithDocs(libs, active, [NewDoc(active, form, file, now, today)] + Visible(libs, active, query))
  }

  /** `handleSaveEdit`: name, category and tags of the edited document, written over the view. */
  function SaveEdit(libs: Libraries, active: string, query: string, current: Option<int>, form: Form): Libraries {
    if current.None? then libs
    else
      var edit := (d: Doc) => if d.id == current.value
        then d.(name := form.name, category := form.category, tags := ParseTags(form.tags)) else d;
      WithDocs(libs, active, Map(edit, Visible(libs, active, query)))
  }

  /** `handleSaveTags`: only the tags of the edited document, written over the view. */
  function SaveTags(libs: Libraries, active: string, query: string, current: Option<int>, form: Form): Libraries {
    if current.None? then libs
    else
      var retag := (d: Doc) => if d.id == current.value then d.(tags := ParseTags(form.tags)) else d;
      WithDocs(libs, active, Map(retag, Visible(libs, active, query)))
  }

  /** `handleDelete` (once confirmed): the view without that id. */
  function Delete(libs: Libraries, active: string, query: string, docId: int): Libraries {
    WithDocs(libs, active, FilterSeq((d: Doc) => d.id != docId, Visible(libs, active, query)))
  }

  /**
   * Upload: a missing name or category changes nothing; otherwise the
   * library becomes the new document followed by the view, which is the
   * whole library under a blank search.
   */
  lemma UploadLaws(libs: Libraries, active: string, query: string, form: Form, file: Option<UploadFile>, now: int, today: string)
    requires KnownLibrary(active)
    ensures form.name == "" || form.category == "" ==> Upload(libs, active, query, form, file, now, today) == libs
    ensures form.name != "" && form.category != "" ==>
      var r := DocsFor(Upload(libs, active, query, form, file, now, today), active);
      r[0] == NewDoc(active, form, file, now, today) && r[1..] == Visible(libs, active, query) &&
      (Blank(query) ==> r[1..] == DocsFor(libs, active))
  {
    if form.name != "" && form.category != "" {
      LibraryLookup(libs, active, active, [NewDoc(active, form, file, now, today)] + Visible(libs, active, query));
    }
  }

  /**
   * Editing: no current document changes nothing; otherwise the library
   * becomes the view with the edited document's name, category and tags
   * replaced and everything else as it was.
   */
  lemma SaveEditLaws(libs: Libraries, active: string, query: string, current: Option<int>, form: Form)
    requires KnownLibrary(active)
    ensures current.None? ==> SaveEdit(libs, active, query, current, form) == libs
    ensures current.Some? ==>
      var v := Visible(libs, active, query);
      var r := DocsFor(SaveEdit(libs, active, query, current, form), active);
      |r| == |v| &&
      forall k :: 0 <= k < |v| ==>
        r[k].(name := v[k].name, category := v[k].category, tags := v[k].tags) == v[k] &&
        (v[k].id == current.value ==>
          r[k].name == form.name && r[k].category == form.category && r[k].tags == ParseTags(form.tags)) &&
        (v[k].id != current.value ==> r[k] == v[k])
  {
  }

  /** Re-tagging changes only the edited document's tags within the view. */
  lemma SaveTagsLaws(libs: Libraries, active: string, query: string, current: Option<int>, form: Form)
    requires KnownLibrary(active)
    ensures current.None? ==> SaveTags(libs, active, query, current, form) == libs
    ensures current.Some? ==>
      var v := Visible(libs, active, query);
      var r := DocsFor(SaveTags(libs, active, query, current, form), active);
      |r| == |v| &&
      forall k :: 0 <= k < |v| ==>
        r[k] == (if v[k].id == current.value then v[k].(tags := ParseTags(form.tags)) else v[k])
  {
  }

  /**
   * Deleting leaves no document with that id and keeps every other shown
   * document, and nothing that was not shown.
   */
  lemma DeleteLaws(libs: Libraries, active: string, query: string, docId: int)
    requires KnownLibrary(active)
    ensures var r := DocsFor(Delete(libs, active, query, docId), active);
      forall d :: d in r <==> d in Visible(libs, active, query) && d.id != docId
  {
    var v := Visible(libs, active, query);
    var r := FilterSeq((d: Doc) => d.id != docId, v);
    forall d | d in v && d.id != docId
      ensures d in r
    {
      var k :| 0 <= k < |v| && v[k] == d;
    }
  }

  /** A document the search hides is not in the view. */
  lemma HiddenNotVisible(libs: Libraries, active: string, query: string, d: Doc)
    requires !Blank(query) && !Matches(query, d)
    ensures d !in Visible(libs, active, query)
  {
    SearchFilter(libs, active, query);
  }

  /**
   * Writing back the view drops the documents the search hides: a document
   * that does not match a non-blank query is gone after a delete of any id.
   */
  lemma HiddenDroppedByDelete(libs: Libraries, active: string, query: string, d: Doc, docId: int)
    requires KnownLibrary(active) && !Blank(query) && !Matches(query, d)
    ensures d !in DocsFor(Delete(libs, active, query, docId), active)
  {
    HiddenNotVisible(libs, active, query, d);
    DeleteLaws(libs, active, query, docId);
  }

  /** The same holds after an edit of another document. */
  lemma HiddenDroppedByEdit(libs: Libraries, active: string, query: string, d: Doc, current: int, form: Form)
    requires KnownLibrary(active) && !Blank(query) && !Matches(query, d) && d.id != current
    ensures d !in DocsFor(SaveEdit(libs, active, query, Some(current), form), active)
  {
    var v := Visible(libs, active, query);
    HiddenNotVisible(libs, active, query, d);
    SaveEditLaws(libs, active, query, Some(current), form);
    var r := DocsFor(SaveEdit(libs, active, query, Some(current), form), active);
    forall k | 0 <= k < |v|
      ensures r[k] != d
    {
      assert r[k].id == v[k].id;
      if v[k].id != current {
        assert r[k] == v[k];
      }
    }
  }

  /** And after a re-tag of another document. */
  lemma HiddenDroppedByRetag(libs: Libraries, active: string, query: string, d: Doc, current: int, form: Form)
    requires KnownLibrary(active) && !Blank(query) && !Matches(query, d) && d.id != current
    ensures d !in DocsFor(SaveTags(libs, active, query, Some(current), form), active)
  {
    var v := Visible(libs, active, query);
    HiddenNotVisible(libs, active, query, d);
    SaveTagsLaws(libs, active, query, Some(current), form);
    var r := DocsFor(SaveTags(libs, active, query, Some(current), form), active);
    forall k | 0 <= k < |v|
      ensures r[k] != d
    {
      assert r[k].id == v[k].id;
    }
  }

  /** And after an upload of another document. */
  lemma HiddenDroppedByUpload(libs: Libraries, active: string, query: string, d: Doc,
                              form: Form, file: Option<UploadFile>, now: int, today: string)
    requires KnownLibrary(active) && !Blank(query) && !Matches(query, d) && d.id != now
    requires form.name != "" && form.category != ""
    ensures d !in DocsFor(Upload(libs, active, query, form, file, now, today), active)
  {
    HiddenNotVisible(libs, active, query, d);
    UploadLaws(libs, active, query, form, file, now, today);
    var r := DocsFor(Upload(libs, active, query, form, file, now, today), active);
    assert r == [r[0]] + Visible(libs, active, query);
  }
}
