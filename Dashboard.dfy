/**
 * The dashboard shell (src/components/Dashboard/Dashboard.jsx): which tab is
 * open, which note the form edits, whether the form is open, and the refresh
 * trigger that the note list watches.
 */
module DashboardView {
  import opened Results
  import opened NotesService

  /** `activeTab`: 'notes' or 'ai'. */
  datatype Tab = NotesTab | AiTab

  class Dashboard {
    var activeTab: Tab
    var selectedNote: Option<Note>
    var showNoteForm: bool
    var refreshTrigger: nat
    /** How many saves and deletes the shell has been told about. */
    ghost var saves: nat
    ghost var deletes: nat

    /** The trigger counts the saves and deletes, and a note is selected only while the form is open. */
    ghost predicate Valid()
      reads this
    {
      && refreshTrigger == saves + deletes
      && (!showNoteForm ==> selectedNote == None)
    }

    constructor ()
      ensures Valid()
      ensures activeTab == NotesTab && selectedNote == None && !showNoteForm && refreshTrigger == 0
      ensures saves == 0 && deletes == 0
    {
      activeTab := NotesTab;
      selectedNote := None;
      showNoteForm := false;
      refreshTrigger := 0;
      saves, deletes := 0, 0;
    }

    /** The two tab buttons. */
    method SelectTab(tab: Tab)
      requires Valid()
      modifies this`activeTab
      ensures Valid()
      ensures activeTab == tab
    {
      activeTab := tab;
    }

    /** `handleCreateNote`: open an empty form. */
    method HandleCreateNote()
      requires Valid()
      modifies this`selectedNote, this`showNoteForm
      ensures Valid()
      ensures selectedNote == None && showNoteForm
    {
      selectedNote := None;
      showNoteForm := true;
    }

    /** `handleEditNote`: open the form on `note`. */
    method HandleEditNote(note: Note)
      requires Valid()
      modifies this`selectedNote, this`showNoteForm
      ensures Valid()
      ensures selectedNote == Some(note) && showNoteForm
    {
      selectedNote := Some(note);
      showNoteForm := true;
    }

    /** `handleCloseForm`: close the form and drop the selection. */
    method HandleCloseForm()
      requires Valid()
      modifies this`selectedNote, this`showNoteForm
      ensures Valid()
      ensures !showNoteForm && selectedNote == None
    {
      showNoteForm := false;
      selectedNote := None;
    }

    /** `handleNoteSaved`: close the form and bump the trigger so the list re-fetches. */
    method HandleNoteSaved()
      requires Valid()
      modifies this`selectedNote, this`showNoteForm, this`refreshTrigger, this`saves
      ensures Valid()
      ensures !showNoteForm && selectedNote == None
      ensures refreshTrigger == old(refreshTrigger) + 1
      ensures saves == old(saves) + 1
    {
      HandleCloseForm();
      refreshTrigger := refreshTrigger + 1;
      saves := saves + 1;
    }

    /** `handleNoteDeleted`: bump the trigger so the list re-fetches. */
    method HandleNoteDeleted()
      requires Valid()
      modifies this`refreshTrigger, this`deletes
      ensures Valid()
      ensures refreshTrigger == old(refreshTrigger) + 1
      ensures deletes == old(deletes) + 1
    {
      refreshTrigger := refreshTrigger + 1;
      deletes := deletes + 1;
    }
  }
}
