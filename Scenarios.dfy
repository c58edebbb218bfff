/**
 * How the pieces work together: a card's delete reaches the shell, the shell's
 * trigger changes, and the list's effect re-fetches a listing without the note.
 */
module Scenarios {
  import opened Results
  import opened NotesService
  import opened NoteListView
  import opened DashboardView
  import opened NoteCardView
  import opened SearchFacts

  /**
   * The user confirms a delete on a card whose shell is `shell`; the list,
   * which last fetched for the shell's current trigger, renders again.
   */
  method DeleteThenRefresh(store: NoteStore, shell: Dashboard, list: NoteList, card: NoteCard, user: UserId)
    requires store.Valid() && shell.Valid()
    requires list.lastDeps == Some(Deps(Some(user), shell.refreshTrigger))
    modifies store, shell, list, card
    ensures store.Valid() && shell.Valid()
    ensures card.note.id !in store.docs
    ensures shell.refreshTrigger == old(shell.refreshTrigger) + 1
    ensures list.requests == old(list.requests) + [user]
    ensures !list.loading && list.error == ""
    ensures IsOwnerListing(store.docs, user, list.notes)
    ensures forall n | n in list.notes :: n.id != card.note.id
  {
    card.HandleDelete(true, store, Delivered, shell);
    var ran := list.RunEffect(Some(user), shell.refreshTrigger, store, Delivered);
    assert ran;
  }

  /**
   * A delete that fails leaves the note in the store, raises the alert and
   * leaves the trigger alone, so the list does not re-fetch.
   */
  method FailedDeleteKeepsList(store: NoteStore, shell: Dashboard, list: NoteList, card: NoteCard, user: UserId, f: Failure)
    requires store.Valid() && shell.Valid()
    requires list.lastDeps == Some(Deps(Some(user), shell.refreshTrigger))
    modifies store, shell, list, card
    ensures store.docs == old(store.docs)
    ensures shell.refreshTrigger == old(shell.refreshTrigger)
    ensures card.alerts == old(card.alerts) + [DELETE_ALERT]
    ensures list.notes == old(list.notes) && list.requests == old(list.requests)
  {
    card.HandleDelete(true, store, Failed(f), shell);
    var ran := list.RunEffect(Some(user), shell.refreshTrigger, store, Delivered);
    assert !ran;
  }

  /**
   * Two notes created for one user come back most recently updated first,
   * and the search picks each by a word of its content, in either case.
   */
  method TwoNotes()
  {
    var store := new NoteStore();
    var ra := store.CreateNote("U1", "Groceries", "milk eggs", Delivered);
    var rb := store.CreateNote("U1", "Work", "meeting notes", Delivered);
    var a, b := ra.value, rb.value;
    var noteA := Note(a, "U1", "Groceries", "milk eggs", 1, 1, NoEmbedding);
    var noteB := Note(b, "U1", "Work", "meeting notes", 2, 2, NoEmbedding);
    assert store.docs == map[a := DataOf(noteA), b := DataOf(noteB)];

    var listed := store.GetUserNotes("U1", Delivered);
    var notes := listed.value;
    assert OwnedIds(store.docs, "U1") == {a, b};
    TwoOwnedListing(store.docs, "U1", notes, b, a);
    assert notes == [noteB, noteA];
    MilkInGroceries();
    MilkNotInWorkTitle();
    MilkNotInWorkContent();
    assert Matches(noteA, "milk") && !Matches(noteB, "milk");
    assert FilterNotes(notes, "milk") == [noteA];
    NotesInWork();
    NotesNotInGroceries();
    assert Matches(noteB, "NOTES") && !Matches(noteA, "NOTES");
    assert FilterNotes(notes, "NOTES") == [noteB];
  }
}

/** The search facts the two-note scenario relies on, about its concrete strings. */
module SearchFacts {
  import opened NoteListView

  /** "milk" occurs in the groceries note's content. */
  lemma MilkInGroceries()
    ensures Includes(Lower("milk eggs"), Lower("milk"))
  {
    LowerOfLowercase("milk");
    LowerOfLowercase("milk eggs");
    assert OccursAt("milk eggs", "milk", 0);
  }

  /** "milk" does not occur in the work note's title. */
  lemma MilkNotInWorkTitle()
    ensures !Includes(Lower("Work"), Lower("milk"))
  {
    LowerOfLowercase("milk");
    LowerOfLowercase("work");
    assert Lower("Work") == "work" by {
      assert Lower("Work")[0] == 'w';
      assert Lower("Work")[1..] == Lower("ork");
    }
    assert "milk"[2] == 'l';
    MissingCharExcludes("work", "milk", 'l');
  }

  /** "milk" does not occur in the work note's content. */
  lemma MilkNotInWorkContent()
    ensures !Includes(Lower("meeting notes"), Lower("milk"))
  {
    LowerOfLowercase("milk");
    LowerOfLowercase("meeting notes");
    assert "milk"[2] == 'l';
    MissingCharExcludes("meeting notes", "milk", 'l');
  }

  lemma UpperNotesIsNotes()
    ensures Lower("NOTES") == "notes"
  {
    var l := Lower("NOTES");
    assert l[0] == 'n' && l[1] == 'o' && l[2] == 't' && l[3] == 'e' && l[4] == 's';
  }

  /** The query "NOTES" occurs, ignoring case, in the work note's content. */
  lemma NotesInWork()
    ensures Includes(Lower("meeting notes"), Lower("NOTES"))
  {
    UpperNotesIsNotes();
    LowerOfLowercase("meeting notes");
    assert "meeting notes"[8..13] == "notes";
    assert OccursAt("meeting notes", "notes", 8);
  }

  /** The query "NOTES" occurs in neither the groceries note's title nor its content. */
  lemma NotesNotInGroceries()
    ensures !Includes(Lower("Groceries"), Lower("NOTES"))
    ensures !Includes(Lower("milk eggs"), Lower("NOTES"))
  {
    UpperNotesIsNotes();
    LowerOfLowercase("milk eggs");
    assert Lower("Groceries") == "groceries" by {
      var l := Lower("Groceries");
      assert l[0] == 'g';
      LowerOfLowercase("roceries");
      assert l[1..] == Lower("roceries");
    }
    assert "notes"[0] == 'n';
    MissingCharExcludes("groceries", "notes", 'n');
    MissingCharExcludes("milk eggs", "notes", 'n');
  }
}
