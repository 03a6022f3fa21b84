/**
  The dashboard (`frontend/src/features/dashboard/Dashboard.tsx`): the
  owner's forms narrowed by the search box and ordered by creation time,
  the local removal after a delete, and the public link it copies.
*/
module Dashboard {
  import opened Wrappers
  import opened Text
  import opened Seqs
  import opened FormTypes

  datatype SortOrder = Newest | Oldest

  /** `loadForms`: a null list counts as no forms. */
  function LoadForms(data: Option<seq<Form>>): (forms: seq<Form>)
    ensures data.None? ==> forms == []
    ensures data.Some? ==> forms == data.value
  {
    data.GetOr([])
  }

  /** The search test: the lower-cased query occurs in the lower-cased title or description. */
  predicate MatchesQuery(f: Form, query: string) {
    Contains(Lower(f.title), Lower(query)) || Contains(Lower(f.description.GetOr("")), Lower(query))
  }

  function QueryMatcher(query: string): Form -> bool {
    (f: Form) => MatchesQuery(f, query)
  }

  /** The search box: a blank query keeps every form; otherwise the forms that match the query as typed (not trimmed). */
  function Search(forms: seq<Form>, query: string): (r: seq<Form>)
    ensures IsBlank(query) ==> r == forms
    ensures !IsBlank(query) ==> (
      && (forall k :: 0 <= k < |r| ==> r[k] in forms && MatchesQuery(r[k], query))
      && (forall k :: 0 <= k < |forms| && MatchesQuery(forms[k], query) ==> forms[k] in r))
    ensures multiset(r) <= multiset(forms)
  {
    if IsBlank(query) then forms
    else
      FilterSubMultiset(forms, QueryMatcher(query));
      Filter(forms, QueryMatcher(query))
  }

  function CreatedAt(f: Form): int {
    f.created_at
  }

  /**
    The list the dashboard shows: the search result ordered newest first or
    oldest first, holding exactly the forms the search keeps.
  */
  function Visible(forms: seq<Form>, query: string, order: SortOrder): (r: seq<Form>)
    ensures multiset(r) == multiset(Search(forms, query))
    ensures order == Newest ==> forall i, j :: 0 <= i < j < |r| ==> r[i].created_at >= r[j].created_at
    ensures order == Oldest ==> forall i, j :: 0 <= i < j < |r| ==> r[i].created_at <= r[j].created_at
    ensures forall k :: 0 <= k < |r| ==> r[k] in forms && (IsBlank(query) || MatchesQuery(r[k], query))
    ensures forall k :: 0 <= k < |forms| && (IsBlank(query) || MatchesQuery(forms[k], query)) ==> forms[k] in r
  {
    var found := Search(forms, query);
    var r := if order == Newest then SortByDescending(found, CreatedAt) else SortBy(found, CreatedAt);
    PermutationMembers(r, found);
    PermutationMembers(found, r);
    r
  }

  lemma {:induction false} LowerIdempotent(s: string)
    ensures Lower(Lower(s)) == Lower(s)
  {
    assert forall i :: 0 <= i < |s| ==> LowerChar(LowerChar(s[i])) == LowerChar(s[i]);
  }

  /** The search ignores the case of the query: typing it in upper or lower case finds the same forms. */
  lemma {:induction false} SearchIgnoresQueryCase(forms: seq<Form>, query: string)
    ensures Search(forms, Lower(query)) == Search(forms, query)
  {
    LowerIdempotent(query);
    assert forall i :: 0 <= i < |query| ==> IsSpace(Lower(query)[i]) == IsSpace(query[i]);
    FilterCongruent(forms, QueryMatcher(Lower(query)), QueryMatcher(query));
  }

  /** A query of Unicode spaces only, such as one ideographic space, is blank: every form is kept. */
  lemma SpaceOnlyQueryKeepsAll(forms: seq<Form>)
    ensures Search(forms, "\U{3000}") == forms
  {
    assert IsSpace("\U{3000}"[0]);
  }

  /** The query is not trimmed for matching: a trailing space hides a form whose title is exactly the word. */
  lemma TrailingSpaceHidesForm(f: Form)
    requires f.title == "Survey" && f.description.None?
    ensures Search([f], "Survey") == [f]
    ensures Search([f], "Survey ") == []
  {
    assert Lower("Survey") == "survey";
    assert OccursAt(Lower(f.title), Lower("Survey"), 0);
    assert !IsBlank("Survey") by {
      assert Trim("Survey") != "";
    }
    assert !IsBlank("Survey ") by {
      assert Trim("Survey ") != "";
    }
    assert !MatchesQuery(f, "Survey ");
    FilterNone([f], QueryMatcher("Survey "));
    FilterAll([f], QueryMatcher("Survey"));
  }

  /** `handleDelete` after the server confirms: the form leaves the list and no search shows it again. */
  function RemoveForm(forms: seq<Form>, formId: Id): (r: seq<Form>)
    ensures forall k :: 0 <= k < |r| ==> r[k].id != formId && r[k] in forms
    ensures forall k :: 0 <= k < |forms| && forms[k].id != formId ==> forms[k] in r
  {
    Filter(forms, (f: Form) => f.id != formId)
  }

  lemma DeletedFormNotShown(forms: seq<Form>, formId: Id, query: string, order: SortOrder)
    ensures forall k :: 0 <= k < |Visible(RemoveForm(forms, formId), query, order)| ==>
      Visible(RemoveForm(forms, formId), query, order)[k].id != formId
  {
  }

  /** `handleCopyLink`: the hash-routed public address of the form. */
  function PublicLink(origin: string, formId: Id): string {
    origin + "/#/form/" + formId
  }

  /** The public page reads the form id back as the link's last path segment, for an id without a slash. */
  lemma PublicLinkNamesForm(origin: string, formId: Id)
    requires '/' !in formId
    ensures LastSegment(PublicLink(origin, formId), '/') == formId
  {
    assert PublicLink(origin, formId) == (origin + "/#/form") + ['/'] + formId;
    LastSegmentAfterPrefix(origin + "/#/form", formId, '/');
  }
}
