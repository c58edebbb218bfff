/**
 * The note card (src/components/Notes/NoteCard.jsx): the text it shows for a
 * note, and the delete flow that confirms, deletes through the repository,
 * and then either tells the shell or raises an alert.
 */
module NoteCardView {
  import opened Results
  import opened NotesService
  import opened DashboardView

  const DEFAULT_MAX_LENGTH: nat := 150
  const ELLIPSIS: string := "..."
  const UNTITLED: string := "Untitled Note"
  const DELETE_ALERT: string := "Failed to delete note. Please try again."

  /** `truncateContent`: short content as it is, long content cut to `maxLength` characters and marked with an ellipsis. */
  function TruncateContent(content: string, maxLength: nat): (r: string)
    ensures |r| <= maxLength + |ELLIPSIS|
    ensures r == content || (|content| > maxLength && r == content[..maxLength] + ELLIPSIS)
    ensures |content| <= maxLength ==> r == content
    ensures |content| > maxLength ==> r == content[..maxLength] + ELLIPSIS
  {
    if |content| <= maxLength then content else content[..maxLength] + ELLIPSIS
  }

  /** Content no longer than the limit is never altered; longer content keeps exactly its first `maxLength` characters. */
  lemma TruncateCases(content: string, maxLength: nat)
    ensures |content| <= maxLength ==> TruncateContent(content, maxLength) == content
    ensures |content| > maxLength ==>
      && |TruncateContent(content, maxLength)| == maxLength + 3
      && TruncateContent(content, maxLength)[..maxLength] == content[..maxLength]
      && TruncateContent(content, maxLength)[maxLength..] == ELLIPSIS
  {
  }

  /** `note.title || 'Untitled Note'`: a missing or empty title is replaced. */
  function DisplayTitle(title: Option<string>): (t: string)
    ensures t != ""
    ensures title.Some? && title.value != "" ==> t == title.value
    ensures title.None? || title.value == "" ==> t == UNTITLED
  {
    if title.Some? && title.value != "" then title.value else UNTITLED
  }

  /** `truncateContent(note.content || '')`: the content preview, with the default limit. */
  function Preview(content: Option<string>): (p: string)
    ensures |p| <= DEFAULT_MAX_LENGTH + 3
  {
    TruncateContent(if content.Some? then content.value else "", DEFAULT_MAX_LENGTH)
  }

  /** The preview is always a prefix of the content followed by nothing or by the ellipsis. */
  lemma PreviewIsPrefix(content: Option<string>)
    ensures var text := if content.Some? then content.value else "";
      exists k: nat, tail: string | k <= |text| && (tail == "" || tail == ELLIPSIS) ::
        Preview(content) == text[..k] + tail
  {
    var text := if content.Some? then content.value else "";
    if |text| <= DEFAULT_MAX_LENGTH {
      assert Preview(content) == text[..|text|] + "";
    } else {
      assert Preview(content) == text[..DEFAULT_MAX_LENGTH] + ELLIPSIS;
    }
  }

  /** What the date line is given: `updatedAt || createdAt`, or 'No date' when neither is set. */
  datatype DateLabel = NoDate | DateOf(stamp: nat)

  function DateShown(updatedAt: Option<nat>, createdAt: Option<nat>): (d: DateLabel)
    ensures d.NoDate? <==> updatedAt.None? && createdAt.None?
    ensures updatedAt.Some? ==> d == DateOf(updatedAt.value)
    ensures updatedAt.None? && createdAt.Some? ==> d == DateOf(createdAt.value)
  {
    if updatedAt.Some? then DateOf(updatedAt.value)
    else if createdAt.Some? then DateOf(createdAt.value)
    else NoDate
  }

  class NoteCard {
    const note: Note
    var isDeleting: bool
    /** The alerts the card has raised, oldest first. */
    ghost var alerts: seq<string>
    /** How many times the card has asked the repository to delete its note. */
    ghost var deleteCalls: nat

    constructor (note: Note)
      ensures this.note == note && !isDeleting && alerts == [] && deleteCalls == 0
    {
      this.note := note;
      isDeleting := false;
      alerts := [];
      deleteCalls := 0;
    }

    /**
     * `handleDelete`. `confirmed` is the user's answer to the confirmation
     * dialog; `onDelete` is the shell the card reports a deletion to, or null
     * when the card was given no callback.
     */
    method HandleDelete(confirmed: bool, store: NoteStore, reply: Reply, onDelete: Dashboard?)
      requires store.Valid()
      requires onDelete != null ==> onDelete.Valid()
      modifies this`isDeleting, this`alerts, this`deleteCalls, store`docs, onDelete
      ensures store.Valid()
      ensures onDelete != null ==> onDelete.Valid()
      ensures !confirmed ==>
        && isDeleting == old(isDeleting) && alerts == old(alerts) && deleteCalls == old(deleteCalls)
        && store.docs == old(store.docs)
        && (onDelete != null ==> unchanged(onDelete))
      ensures confirmed ==> !isDeleting && deleteCalls == old(deleteCalls) + 1
      ensures confirmed && reply.Delivered? ==>
        && store.docs == old(store.docs) - {note.id}
        && alerts == old(alerts)
        && (onDelete != null ==>
              && onDelete.refreshTrigger == old(onDelete.refreshTrigger) + 1
              && onDelete.deletes == old(onDelete.deletes) + 1
              && onDelete.activeTab == old(onDelete.activeTab)
              && onDelete.selectedNote == old(onDelete.selectedNote)
              && onDelete.showNoteForm == old(onDelete.showNoteForm)
              && onDelete.saves == old(onDelete.saves))
      ensures confirmed && reply.Failed? ==>
        && store.docs == old(store.docs)
        && alerts == old(alerts) + [DELETE_ALERT]
        && (onDelete != null ==> unchanged(onDelete))
    {
      if !confirmed {
        return;
      }
      isDeleting := true;
      deleteCalls := deleteCalls + 1;
      var r := store.DeleteNote(note.id, reply);
      if r.Success? {
        if onDelete != null {
          onDelete.HandleNoteDeleted();
        }
      } else {
        alerts := alerts + [DELETE_ALERT];
      }
      isDeleting := false;
    }
  }
}
