/**
 * The note list (src/components/Notes/NoteList.jsx): the fetch effect that
 * drives `notes`, `loading` and `error`, the case-insensitive search filter,
 * and what the list renders from that state.
 */
module NoteListView {
  import opened Results
  import opened NotesService

  const FETCH_ERROR: string := "Failed to load notes. Please try again."

  /** Lower-casing of one character, over ASCII letters only. */
  function LowerChar(c: char): (l: char)
    ensures !('A' <= l <= 'Z')
    ensures !('A' <= c <= 'Z') ==> l == c
    ensures 'A' <= c <= 'Z' ==> 'a' <= l <= 'z' && l as int - 'a' as int == c as int - 'A' as int
  {
    if 'A' <= c <= 'Z' then (c as int - 'A' as int + 'a' as int) as char else c
  }

  /** Two characters are the same up to ASCII case: equal, or the upper- and lower-case forms of one letter. */
  predicate EqualIgnoringCase(c: char, d: char)
  {
    || c == d
    || ('A' <= c <= 'Z' && d as int == c as int - 'A' as int + 'a' as int)
    || ('A' <= d <= 'Z' && c as int == d as int - 'A' as int + 'a' as int)
  }

  /** Lower-casing identifies exactly the characters that are equal up to case. */
  lemma LowerCharIdentifiesCase(c: char, d: char)
    ensures LowerChar(c) == LowerChar(d) <==> EqualIgnoringCase(c, d)
  {
  }

  /** `toLowerCase()`, character by character. */
  function Lower(s: string): (r: string)
    ensures |r| == |s|
    ensures forall i | 0 <= i < |s| :: r[i] == LowerChar(s[i])
    ensures forall i | 0 <= i < |r| :: !('A' <= r[i] <= 'Z')
  {
    seq(|s|, i requires 0 <= i < |s| => LowerChar(s[i]))
  }

  /** `needle` occurs in `hay` starting at position `i`. */
  predicate OccursAt(hay: string, needle: string, i: nat)
  {
    i + |needle| <= |hay| && hay[i..i + |needle|] == needle
  }

  /** `hay.includes(needle)`: `needle` occurs in `hay` as a contiguous substring. */
  predicate Includes(hay: string, needle: string)
    ensures needle == [] ==> Includes(hay, needle)
    ensures Includes(hay, needle) ==> |needle| <= |hay|
    ensures Includes(hay, needle) && needle != [] ==> needle[0] in hay
  {
    assert OccursAt(hay, [], 0);
    exists i: nat | i <= |hay| :: OccursAt(hay, needle, i)
  }

  /** The search test applied to one note: title or content contains the query, ignoring case. */
  predicate Matches(n: Note, query: string)
    ensures query == [] ==> Matches(n, query)
    ensures Matches(n, query) ==> |query| <= |n.title| || |query| <= |n.content|
  {
    Includes(Lower(n.title), Lower(query)) || Includes(Lower(n.content), Lower(query))
  }

  /** Lower-casing commutes with taking a slice. */
  lemma LowerSlice(s: string, i: nat, j: nat)
    requires i <= j <= |s|
    ensures Lower(s[i..j]) == Lower(s)[i..j]
  {
  }

  /** Text without upper-case letters is its own lower-case form. */
  lemma LowerOfLowercase(s: string)
    requires forall i | 0 <= i < |s| :: !('A' <= s[i] <= 'Z')
    ensures Lower(s) == s
  {
  }

  /** A needle with a character the haystack lacks cannot occur in it. */
  lemma MissingCharExcludes(hay: string, needle: string, c: char)
    requires c in needle && c !in hay
    ensures !Includes(hay, needle)
  {
    var j :| 0 <= j < |needle| && needle[j] == c;
    forall i: nat | i <= |hay| ensures !OccursAt(hay, needle, i) {
      if i + |needle| <= |hay| {
        assert hay[i..i + |needle|][j] == hay[i + j] != c;
      }
    }
  }

  /** A note whose title or content contains the query verbatim is found by the search. */
  lemma ExactOccurrenceMatches(n: Note, query: string)
    requires Includes(n.title, query) || Includes(n.content, query)
    ensures Matches(n, query)
  {
    var text := if Includes(n.title, query) then n.title else n.content;
    var i: nat :| i <= |text| && OccursAt(text, query, i);
    LowerSlice(text, i, i + |query|);
    assert OccursAt(Lower(text), Lower(query), i);
  }

  /** The search ignores the case of the query: upper- and lower-case queries select the same notes. */
  lemma MatchesIgnoresQueryCase(n: Note, query: string)
    ensures Matches(n, Lower(query)) == Matches(n, query)
  {
    assert Lower(Lower(query)) == Lower(query);
  }

  /** `a` is `b` with some elements left out and the rest kept in order. */
  ghost predicate IsSubsequence(a: seq<Note>, b: seq<Note>)
    decreases |b|
  {
    if a == [] then true
    else if b == [] then false
    else if a[0] == b[0] then IsSubsequence(a[1..], b[1..])
    else IsSubsequence(a, b[1..])
  }

  /** `notes.filter(note => ...)` with the search test above. */
  function FilterNotes(notes: seq<Note>, query: string): (r: seq<Note>)
    ensures forall n :: n in r <==> n in notes && Matches(n, query)
    ensures forall n :: multiset(r)[n] == if Matches(n, query) then multiset(notes)[n] else 0
    ensures IsSubsequence(r, notes)
  {
    if notes == [] then []
    else
      var rest := FilterNotes(notes[1..], query);
      assert notes == [notes[0]] + notes[1..];
      if Matches(notes[0], query) then [notes[0]] + rest else rest
  }

  /** The empty query matches every note, so the filter keeps the whole list. */
  lemma {:induction false} FilterEmptyQuery(notes: seq<Note>)
    ensures FilterNotes(notes, "") == notes
  {
    if notes != [] {
      assert Lower("") == "";
      assert OccursAt(Lower(notes[0].title), "", 0);
      assert Matches(notes[0], "");
      FilterEmptyQuery(notes[1..]);
    }
  }

  /** Filtering the filtered list again with the same query changes nothing. */
  lemma {:induction false} FilterIdempotent(notes: seq<Note>, query: string)
    ensures FilterNotes(FilterNotes(notes, query), query) == FilterNotes(notes, query)
  {
    if notes != [] {
      FilterIdempotent(notes[1..], query);
      if Matches(notes[0], query) {
        var rest := FilterNotes(notes[1..], query);
        assert ([notes[0]] + rest)[1..] == rest;
      }
    }
  }

  /** The values the fetch effect depends on: the current user and the refresh trigger. */
  datatype Deps = Deps(user: Option<UserId>, trigger: nat)

  /** What the list renders: a spinner, or the page with an optional error banner and either the empty-state panel or the cards. */
  datatype Screen = Spinner | Page(banner: Option<string>, emptyState: bool, cards: seq<Note>)

  class NoteList {
    var notes: seq<Note>
    var loading: bool
    var searchQuery: string
    var error: string
    /** The dependency values the effect last ran with; None before the first render. */
    var lastDeps: Option<Deps>
    /** The users `getUserNotes` has been called for, oldest first. */
    ghost var requests: seq<UserId>

    constructor ()
      ensures notes == [] && loading && searchQuery == "" && error == ""
      ensures lastDeps == None && requests == []
    {
      notes := [];
      loading := true;
      searchQuery := "";
      error := "";
      lastDeps := None;
      requests := [];
    }

    /** The search box's `onChange`. */
    method SetSearchQuery(query: string)
      modifies this`searchQuery
      ensures searchQuery == query
    {
      searchQuery := query;
    }

    /** The part of `fetchNotes` before the call: bail out without a user, else show the spinner and clear the error. */
    method BeginFetch(currentUser: Option<UserId>) returns (uid: Option<UserId>)
      modifies this`loading, this`error
      ensures uid == currentUser
      ensures currentUser.None? ==> !loading && error == old(error)
      ensures currentUser.Some? ==> loading && error == ""
    {
      if currentUser.None? {
        loading := false;
        return None;
      }
      loading := true;
      error := "";
      uid := currentUser;
    }

    /** The part of `fetchNotes` after the call: keep the notes or report the failure, then stop loading. */
    method EndFetch(response: Result<seq<Note>, Error>)
      modifies this`notes, this`loading, this`error
      ensures !loading
      ensures response.Success? ==> notes == response.value && error == old(error)
      ensures response.Failure? ==> notes == old(notes) && error == FETCH_ERROR
    {
      if response.Success? {
        notes := response.value;
      } else {
        error := FETCH_ERROR;
      }
      loading := false;
    }

    /** What one run of `fetchNotes` leaves behind, against the store contents `docs`. */
    twostate predicate Fetched(currentUser: Option<UserId>, docs: map<NoteId, Record>, reply: Reply)
      reads this
    {
      && !loading
      && (currentUser.None? ==>
            notes == old(notes) && error == old(error) && requests == old(requests))
      && (currentUser.Some? ==> requests == old(requests) + [currentUser.value])
      && (currentUser.Some? && reply.Delivered? ==>
            error == "" && IsOwnerListing(docs, currentUser.value, notes))
      && (currentUser.Some? && reply.Failed? ==>
            error == FETCH_ERROR && notes == old(notes))
    }

    /** `fetchNotes`: load the current user's notes from the store. */
    method FetchNotes(currentUser: Option<UserId>, store: NoteStore, reply: Reply)
      modifies this`notes, this`loading, this`error, this`requests
      ensures Fetched(currentUser, store.docs, reply)
      ensures searchQuery == old(searchQuery) && lastDeps == old(lastDeps)
    {
      var uid := BeginFetch(currentUser);
      if uid.None? {
        return;
      }
      requests := requests + [uid.value];
      var response := store.GetUserNotes(uid.value, reply);
      EndFetch(response);
    }

    /** The `useEffect` after a render: it re-runs `fetchNotes` exactly when the user or the refresh trigger differs from last time. */
    method RunEffect(currentUser: Option<UserId>, refreshTrigger: nat, store: NoteStore, reply: Reply)
      returns (ran: bool)
      modifies this
      ensures ran <==> old(lastDeps) != Some(Deps(currentUser, refreshTrigger))
      ensures lastDeps == Some(Deps(currentUser, refreshTrigger))
      ensures searchQuery == old(searchQuery)
      ensures ran ==> Fetched(currentUser, store.docs, reply)
      ensures !ran ==>
        notes == old(notes) && loading == old(loading) && error == old(error) && requests == old(requests)
    {
      var deps := Deps(currentUser, refreshTrigger);
      ran := lastDeps != Some(deps);
      if ran {
        lastDeps := Some(deps);
        FetchNotes(currentUser, store, reply);
      }
    }

    /** The notes the search keeps. */
    function FilteredNotes(): (r: seq<Note>)
      reads this
      ensures forall n :: n in r <==> n in notes && Matches(n, searchQuery)
      ensures IsSubsequence(r, notes)
      ensures searchQuery == "" ==> r == notes
    {
      FilterEmptyQuery(notes);
      FilterNotes(notes, searchQuery)
    }

    /** What the list renders from its state. */
    function View(): (s: Screen)
      reads this
      ensures s.Spinner? <==> loading
      ensures s.Page? ==>
        && s.banner == (if error == "" then None else Some(error))
        && s.cards == FilteredNotes()
        && (s.emptyState <==> error == "" && FilteredNotes() == [])
    {
      if loading then Spinner
      else
        var filtered := FilteredNotes();
        Page(if error == "" then None else Some(error), error == "" && |filtered| == 0, filtered)
    }
  }
}
