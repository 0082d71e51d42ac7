/**
 * src/pages/NewArticlePage.jsx: the form for a new article.  Each input
 * change updates one field of the form record; submitting builds the
 * article record from the form and the tags picked in the tag picker.
 * The current date, the date formatting and the generated id are inputs.
 */
module NewArticlePage {
  import opened Wrappers
  import opened Strings

  /** `formData`; `kind` is the `type` field. */
  datatype FormData = FormData(
    authors: string, publication: string, published_on: string,
    read: bool, is_paid: bool, rating: string,
    url: string, language: string, kind: string)

  /** The initial form (lines 13-23). */
  const InitialForm := FormData("", "", "", false, false, "", "", "English", "Article")

  /** The values the `type` select offers. */
  const TypeOptions := ["Article", "Course", "Post", "Article Series"]

  /** The text, date, number and select inputs, by their `name`. */
  datatype TextField = Url | Authors | Publication | PublishedOn | Rating | Type | Language

  /** The two checkboxes, by their `name`. */
  datatype CheckField = Read | IsPaid

  /** A change event of one input. */
  datatype Event = Typed(field: TextField, value: string) | Checked(box: CheckField, checked: bool)

  function TextOf(f: FormData, t: TextField): string {
    match t
    case Url => f.url
    case Authors => f.authors
    case Publication => f.publication
    case PublishedOn => f.published_on
    case Rating => f.rating
    case Type => f.kind
    case Language => f.language
  }

  function CheckOf(f: FormData, c: CheckField): bool {
    match c
    case Read => f.read
    case IsPaid => f.is_paid
  }

  /** `handleInputChange` (lines 26-43). */
  function HandleInputChange(form: FormData, ev: Event): (r: FormData)
    ensures ev.Typed? ==>
      TextOf(r, ev.field) == ev.value &&
      (forall t :: t != ev.field ==> TextOf(r, t) == TextOf(form, t)) &&
      r.read == form.read && r.is_paid == form.is_paid
    ensures ev.Checked? ==>
      CheckOf(r, ev.box) == ev.checked &&
      (forall c :: c != ev.box ==> CheckOf(r, c) == CheckOf(form, c)) &&
      (forall t :: t != Rating ==> TextOf(r, t) == TextOf(form, t)) &&
      r.rating == (if ev.box == Read && !ev.checked then "" else form.rating)
  {
    match ev
    case Checked(box, checked) =>
      var next := if box == Read then form.(read := checked) else form.(is_paid := checked);
      if box == Read && !checked then next.(rating := "") else next
    case Typed(field, value) =>
      match field
      case Url => form.(url := value)
      case Authors => form.(authors := value)
      case Publication => form.(publication := value)
      case PublishedOn => form.(published_on := value)
      case Rating => form.(rating := value)
      case Type => form.(kind := value)
      case Language => form.(language := value)
  }

  /**
   * The events the rendered form can produce: the rating input exists only
   * while `read` is checked, and the select offers only `TypeOptions`.
   */
  predicate Enabled(form: FormData, ev: Event) {
    match ev
    case Typed(field, value) =>
      (field == Rating ==> form.read) && (field == Type ==> value in TypeOptions)
    case Checked(_, _) => true
  }

  /** What the form keeps true: no rating without `read`, and a listed type. */
  predicate Consistent(form: FormData) {
    (!form.read ==> form.rating == "") && form.kind in TypeOptions
  }

  /** The initial form is consistent, and every event the form can produce keeps it so. */
  lemma ChangesKeepConsistent(form: FormData, ev: Event)
    requires Consistent(form) && Enabled(form, ev)
    ensures Consistent(InitialForm)
    ensures Consistent(HandleInputChange(form, ev))
  {
  }

  /** The form after a run of events from the initial form. */
  function AfterEvents(evs: seq<Event>): FormData {
    if evs == [] then InitialForm
    else HandleInputChange(AfterEvents(evs[..|evs| - 1]), evs[|evs| - 1])
  }

  /** Every form reachable through enabled events is consistent. */
  lemma {:induction false} ReachableConsistent(evs: seq<Event>)
    requires forall i :: 0 <= i < |evs| ==> Enabled(AfterEvents(evs[..i]), evs[i])
    ensures Consistent(AfterEvents(evs))
  {
    if evs != [] {
      var init := evs[..|evs| - 1];
      forall i | 0 <= i < |init|
        ensures Enabled(AfterEvents(init[..i]), init[i])
      {
        assert init[..i] == evs[..i];
      }
      ReachableConsistent(init);
      assert evs[..|evs| - 1] == init;
      ChangesKeepConsistent(AfterEvents(init), evs[|evs| - 1]);
    }
  }

  // ---------------------------------------------------------------------
  // Submitting
  // ---------------------------------------------------------------------

  /** `.map((a) => a.trim()).filter((a) => a.length > 0)` */
  function TrimmedNonEmpty(pieces: seq<string>): seq<string> {
    if pieces == [] then []
    else
      var init := TrimmedNonEmpty(pieces[..|pieces| - 1]);
      var t := Trim(pieces[|pieces| - 1]);
      if |t| > 0 then init + [t] else init
  }

  /** `authorsArray` (lines 48-51). */
  function AuthorList(authors: string): seq<string> {
    TrimmedNonEmpty(Split(authors, ','))
  }

  lemma SliceMembers(s: string, i: int, j: int, c: char)
    requires 0 <= i <= j <= |s| && c in s[i..j]
    ensures c in s
  {
    var k :| 0 <= k < j - i && s[i..j][k] == c;
    assert s[i + k] == c;
  }

  /** An entry is the non-empty trim of some piece, in the order of the pieces. */
  lemma {:induction false} TrimmedNonEmptyMeaning(pieces: seq<string>)
    ensures forall a :: a in TrimmedNonEmpty(pieces) <==> a != "" && exists p :: p in pieces && Trim(p) == a
    ensures |TrimmedNonEmpty(pieces)| <= |pieces|
  {
    if pieces != [] {
      var init := pieces[..|pieces| - 1];
      TrimmedNonEmptyMeaning(init);
      assert pieces == init + [pieces[|pieces| - 1]];
    }
  }

  /**
   * The authors are the comma-separated entries, trimmed, with the empty
   * ones dropped: each is non-empty, trimmed and free of commas.
   */
  lemma AuthorListMeaning(authors: string)
    ensures forall a :: a in AuthorList(authors) <==> a != "" && exists p :: p in Split(authors, ',') && Trim(p) == a
    ensures forall a :: a in AuthorList(authors) ==> a != "" && Trim(a) == a && ',' !in a
  {
    var pieces := Split(authors, ',');
    TrimmedNonEmptyMeaning(pieces);
    forall a | a in AuthorList(authors)
      ensures Trim(a) == a && ',' !in a
    {
      var p :| p in pieces && Trim(p) == a;
      TrimIdempotent(p);
      var i, j :| 0 <= i <= j <= |p| && a == p[i..j];
      if ',' in a {
        SliceMembers(p, i, j, ',');
      }
    }
  }

  /** The record built by `handleSubmit` (lines 71-86). */
  datatype ArticleRecord = ArticleRecord(
    added_on: string, authors: seq<string>, publication: string, published_on: string,
    read: bool, is_paid: bool, rating: Option<string>, tags: seq<string>,
    thumbnail: string, title: string, url: string, language: string, kind: string, id: string)

  /**
   * `handleSubmit` (lines 45-89).  `selectedTags` are the names the tag
   * picker last reported; `addedOn` is today's date as the page formats
   * it, `formatDate` the page's reformatting of a non-empty
   * `published_on`, and `id` the generated identifier.
   */
  function Submit(form: FormData, selectedTags: seq<string>,
                  addedOn: string, formatDate: string -> string, id: string): (r: ArticleRecord)
    ensures r.authors == AuthorList(form.authors)
    ensures r.rating.Some? <==> form.read
    ensures form.read ==> r.rating == Some(form.rating)
    ensures r.tags == selectedTags && r.thumbnail == "" && r.title == ""
    ensures r.url == Trim(form.url) && r.publication == Trim(form.publication)
    ensures r.language != "" && (Trim(form.language) != "" ==> r.language == Trim(form.language))
    ensures Trim(form.language) == "" ==> r.language == "English"
    ensures r.read == form.read && r.is_paid == form.is_paid && r.kind == form.kind
    ensures r.published_on == (if form.published_on == "" then "" else formatDate(form.published_on))
    ensures r.added_on == addedOn && r.id == id
  {
    var language := Trim(form.language);
    ArticleRecord(
      addedOn, AuthorList(form.authors), Trim(form.publication),
      if form.published_on != "" then formatDate(form.published_on) else form.published_on,
      form.read, form.is_paid, if form.read then Some(form.rating) else None, selectedTags,
      "", "", Trim(form.url), if language != "" then language else "English", form.kind, id)
  }

  /** The text fields of a submitted record are already trimmed. */
  lemma SubmittedFieldsTrimmed(form: FormData, selectedTags: seq<string>,
                               addedOn: string, formatDate: string -> string, id: string)
    ensures var r := Submit(form, selectedTags, addedOn, formatDate, id);
      Trim(r.url) == r.url && Trim(r.publication) == r.publication && Trim(r.language) == r.language
  {
    TrimIdempotent(form.url);
    TrimIdempotent(form.publication);
    TrimIdempotent(form.language);
    assert Trim("English") == "English" by {
      TrimFixed("English");
    }
  }

  /** A consistent form submits a rating only while `read`, and then the one typed; the type is a listed one. */
  lemma SubmittedRating(form: FormData, selectedTags: seq<string>,
                        addedOn: string, formatDate: string -> string, id: string)
    requires Consistent(form)
    ensures var r := Submit(form, selectedTags, addedOn, formatDate, id);
      r.kind in TypeOptions && (r.rating.None? <==> !r.read)
  {
  }
}
