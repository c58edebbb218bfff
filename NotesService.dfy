/**
 * The note repository (src/services/notesService.js).
 *
 * The remote `notes` collection is a map from document id to document data,
 * owned by the class NoteStore. The store's server clock is a counter that
 * every write advances, and the outcome of each operation's single round trip
 * is an input (`Reply`): either the store answers, or the call fails with a
 * store error, which the repository re-throws unchanged.
 */
module NotesService {
  import opened Results

  type NoteId = string
  type UserId = string

  /** The store error codes an operation can be rejected with. */
  datatype Failure = Unavailable | PermissionDenied | NotFound

  /** How the one round trip of an operation ends. */
  datatype Reply = Delivered | Failed(failure: Failure)

  /** What an operation throws: a store error, or an error raised by the repository itself. */
  datatype Error = Store(failure: Failure) | Thrown(message: string)

  const NOTE_NOT_FOUND: string := "Note not found"

  /** The `embedding` field: null until an external function fills it in. */
  datatype Embedding = NoEmbedding | Vector(values: seq<real>)

  /** The data of one document of the `notes` collection. */
  datatype Record = Record(
    userId: UserId,
    title: string,
    content: string,
    createdAt: nat,
    updatedAt: nat,
    embedding: Embedding)

  /** A note as the repository hands it out: the document id spread together with the data. */
  datatype Note = Note(
    id: NoteId,
    userId: UserId,
    title: string,
    content: string,
    createdAt: nat,
    updatedAt: nat,
    embedding: Embedding)

  /** One document of a query snapshot: `doc.id` and `doc.data()`. */
  datatype Doc = Doc(id: NoteId, data: Record)

  /** The document data a note carries, without its id. */
  function DataOf(n: Note): Record
  {
    Record(n.userId, n.title, n.content, n.createdAt, n.updatedAt, n.embedding)
  }

  /** `{ id, ...data }`: spreading the data back out of a note restores it. */
  function WithId(id: NoteId, r: Record): (n: Note)
    ensures n.id == id && DataOf(n) == r
  {
    Note(id, r.userId, r.title, r.content, r.createdAt, r.updatedAt, r.embedding)
  }

  /** Every document was created no later than its last update, and neither lies after the clock. */
  ghost predicate Consistent(docs: map<NoteId, Record>, clock: nat)
  {
    forall id | id in docs :: docs[id].createdAt <= docs[id].updatedAt <= clock
  }

  ghost predicate DescendingDocs(s: seq<Doc>)
  {
    forall i, j | 0 <= i < j < |s| :: s[i].data.updatedAt >= s[j].data.updatedAt
  }

  ghost predicate DistinctDocIds(s: seq<Doc>)
  {
    forall i, j | 0 <= i < j < |s| :: s[i].id != s[j].id
  }

  ghost predicate Descending(s: seq<Note>)
  {
    forall i, j | 0 <= i < j < |s| :: s[i].updatedAt >= s[j].updatedAt
  }

  /** `snap` is an answer to `where('userId', '==', u)` ordered by `updatedAt` descending. */
  ghost predicate IsOwnerSnapshot(docs: map<NoteId, Record>, u: UserId, snap: seq<Doc>)
  {
    && (forall d | d in snap :: d.id in docs && docs[d.id] == d.data && d.data.userId == u)
    && (forall id | id in docs && docs[id].userId == u :: Doc(id, docs[id]) in snap)
    && DistinctDocIds(snap)
    && DescendingDocs(snap)
  }

  /**
   * `notes` lists exactly the documents owned by `u`, each once, each with its id
   * attached, most recently updated first.
   */
  ghost predicate IsOwnerListing(docs: map<NoteId, Record>, u: UserId, notes: seq<Note>)
  {
    && (forall n | n in notes :: n.id in docs && WithId(n.id, docs[n.id]) == n && n.userId == u)
    && (forall id | id in docs && docs[id].userId == u :: WithId(id, docs[id]) in notes)
    && (forall i, j | 0 <= i < j < |notes| :: notes[i].id != notes[j].id)
    && Descending(notes)
  }

  /** The ids of the documents `u` owns. */
  ghost function OwnedIds(docs: map<NoteId, Record>, u: UserId): set<NoteId>
  {
    set id | id in docs && docs[id].userId == u
  }

  /** The ids the notes carry. */
  ghost function IdsOf(notes: seq<Note>): (ids: set<NoteId>)
    ensures forall i | 0 <= i < |notes| :: notes[i].id in ids
    ensures forall id | id in ids :: exists i :: 0 <= i < |notes| && notes[i].id == id
  {
    if notes == [] then {} else {notes[0].id} + IdsOf(notes[1..])
  }

  lemma {:induction false} DistinctIdsCount(notes: seq<Note>)
    requires forall i, j | 0 <= i < j < |notes| :: notes[i].id != notes[j].id
    ensures |IdsOf(notes)| == |notes|
  {
    if notes != [] {
      var rest := notes[1..];
      DistinctIdsCount(rest);
      forall id | id in IdsOf(rest) ensures id != notes[0].id {
        var j :| 0 <= j < |rest| && rest[j].id == id;
        assert rest[j] == notes[j + 1];
      }
    }
  }

  /** A listing names each owned document exactly once, so it is as long as the owner has documents. */
  lemma ListingIsOwnedSet(docs: map<NoteId, Record>, u: UserId, notes: seq<Note>)
    requires IsOwnerListing(docs, u, notes)
    ensures IdsOf(notes) == OwnedIds(docs, u)
    ensures |notes| == |OwnedIds(docs, u)|
  {
    forall id | id in OwnedIds(docs, u) ensures id in IdsOf(notes) {
      assert WithId(id, docs[id]) in notes;
    }
    forall id | id in IdsOf(notes) ensures id in OwnedIds(docs, u) {
      var i :| 0 <= i < |notes| && notes[i].id == id;
      assert notes[i] in notes;
    }
    DistinctIdsCount(notes);
  }

  /** An owner with two documents updated at different times gets the newer one first. */
  lemma TwoOwnedListing(docs: map<NoteId, Record>, u: UserId, notes: seq<Note>, newer: NoteId, older: NoteId)
    requires IsOwnerListing(docs, u, notes)
    requires OwnedIds(docs, u) == {newer, older} && newer != older
    requires docs[newer].updatedAt > docs[older].updatedAt
    ensures notes == [WithId(newer, docs[newer]), WithId(older, docs[older])]
  {
    ListingIsOwnedSet(docs, u, notes);
    assert |notes| == 2 by {
      assert |{newer, older}| == 2;
    }
    assert notes[0] in notes && notes[1] in notes;
    assert notes[0].id in {newer, older} && notes[1].id in {newer, older};
  }

  /** The first position in a descending snapshot whose `updatedAt` is at most `t`. */
  function InsertionPoint(s: seq<Doc>, t: nat): (k: nat)
    ensures k <= |s|
    ensures forall i | 0 <= i < k :: s[i].data.updatedAt > t
    ensures k < |s| ==> s[k].data.updatedAt <= t
  {
    if s == [] || s[0].data.updatedAt <= t then 0 else 1 + InsertionPoint(s[1..], t)
  }

  /** Places `d` into a descending snapshot, keeping it descending. */
  function InsertDoc(s: seq<Doc>, d: Doc): (r: seq<Doc>)
  {
    var k := InsertionPoint(s, d.data.updatedAt);
    s[..k] + [d] + s[k..]
  }

  lemma InsertDocAt(s: seq<Doc>, d: Doc)
    ensures var k := InsertionPoint(s, d.data.updatedAt);
      && |InsertDoc(s, d)| == |s| + 1
      && InsertDoc(s, d)[k] == d
      && (forall i | 0 <= i < k :: InsertDoc(s, d)[i] == s[i])
      && (forall i | k < i <= |s| :: InsertDoc(s, d)[i] == s[i - 1])
  {
  }

  lemma InsertDocDescending(s: seq<Doc>, d: Doc)
    requires DescendingDocs(s)
    ensures DescendingDocs(InsertDoc(s, d))
  {
    InsertDocAt(s, d);
    var t := d.data.updatedAt;
    var k := InsertionPoint(s, t);
    var r := InsertDoc(s, d);
    assert forall i | k <= i < |s| :: s[i].data.updatedAt <= t by {
      forall i | k <= i < |s| ensures s[i].data.updatedAt <= t {
        assert s[k].data.updatedAt >= s[i].data.updatedAt || i == k;
      }
    }
    forall i, j | 0 <= i < j < |r| ensures r[i].data.updatedAt >= r[j].data.updatedAt {
      if j < k {
        assert r[i] == s[i] && r[j] == s[j];
      } else if i < k {
        assert r[i] == s[i];
      } else if i > k {
        assert r[i] == s[i - 1] && r[j] == s[j - 1];
      }
    }
  }

  lemma InsertDocDistinct(s: seq<Doc>, d: Doc)
    requires DistinctDocIds(s)
    requires forall x | x in s :: x.id != d.id
    ensures DistinctDocIds(InsertDoc(s, d))
  {
    InsertDocAt(s, d);
    var k := InsertionPoint(s, d.data.updatedAt);
    var r := InsertDoc(s, d);
    forall i, j | 0 <= i < j < |r| ensures r[i].id != r[j].id {
      if j < k {
        assert r[i] == s[i] && r[j] == s[j];
      } else if j == k {
        assert r[i] == s[i];
      } else if i < k {
        assert r[i] == s[i] && r[j] == s[j - 1];
      } else if i == k {
        assert r[j] == s[j - 1];
      } else {
        assert r[i] == s[i - 1] && r[j] == s[j - 1];
      }
    }
  }

  lemma InsertDocMembers(s: seq<Doc>, d: Doc)
    ensures forall x :: x in InsertDoc(s, d) <==> x in s || x == d
  {
    var k := InsertionPoint(s, d.data.updatedAt);
    assert s == s[..k] + s[k..];
  }

  /** A string longer than every key of a finite set. */
  lemma {:induction false} LongerThanAll(keys: set<NoteId>) returns (n: nat)
    ensures forall id | id in keys :: |id| < n
    decreases keys
  {
    if keys == {} {
      n := 0;
    } else {
      var id :| id in keys;
      var m := LongerThanAll(keys - {id});
      n := if |id| < m then m else |id| + 1;
    }
  }

  /** A finite collection always leaves some id unused, so `addDoc` can always pick a fresh one. */
  lemma FreshIdExists(keys: set<NoteId>)
    ensures exists id: NoteId :: id !in keys
  {
    var n := LongerThanAll(keys);
    var id: NoteId := seq(n, _ => 'n');
    assert id !in keys;
  }

  /** The remote `notes` collection and the store's server clock. */
  class NoteStore {
    var docs: map<NoteId, Record>
    var clock: nat

    ghost predicate Valid()
      reads this
    {
      Consistent(docs, clock)
    }

    constructor ()
      ensures Valid() && docs == map[] && clock == 0
    {
      docs := map[];
      clock := 0;
    }

    /** `serverTimestamp()`: the time the store gives the write it is committing. */
    method Tick() returns (now: nat)
      requires Valid()
      modifies this`clock
      ensures Valid()
      ensures now == clock == old(clock) + 1
    {
      clock := clock + 1;
      now := clock;
    }

    /** `createNote`: adds a note under a fresh id and returns that id. */
    method CreateNote(userId: UserId, title: string, content: string, reply: Reply)
      returns (r: Result<NoteId, Error>)
      requires Valid()
      modifies this
      ensures Valid()
      ensures reply.Failed? ==>
        r == Failure(Store(reply.failure)) && docs == old(docs) && clock == old(clock)
      ensures reply.Delivered? ==>
        && r.Success? && r.value !in old(docs)
        && clock == old(clock) + 1
        && docs == old(docs)[r.value := Record(userId, title, content, clock, clock, NoEmbedding)]
    {
      if reply.Failed? {
        return Failure(Store(reply.failure));
      }
      FreshIdExists(docs.Keys);
      var id: NoteId :| id !in docs;
      var now := Tick();
      docs := docs[id := Record(userId, title, content, now, now, NoEmbedding)];
      r := Success(id);
    }

    /** `updateNote`: overwrites title and content and stamps a new `updatedAt`. */
    method UpdateNote(noteId: NoteId, title: string, content: string, reply: Reply)
      returns (r: Result<(), Error>)
      requires Valid()
      modifies this
      ensures Valid()
      ensures reply.Failed? ==>
        r == Failure(Store(reply.failure)) && docs == old(docs) && clock == old(clock)
      ensures reply.Delivered? && noteId !in old(docs) ==>
        r == Failure(Store(NotFound)) && docs == old(docs) && clock == old(clock)
      ensures reply.Delivered? && noteId in old(docs) ==>
        && r.Success?
        && clock == old(clock) + 1
        && docs == old(docs)[noteId := old(docs)[noteId].(title := title, content := content, updatedAt := clock)]
        && docs[noteId].updatedAt > old(docs)[noteId].updatedAt
    {
      if reply.Failed? {
        return Failure(Store(reply.failure));
      }
      if noteId !in docs {
        return Failure(Store(NotFound));
      }
      var now := Tick();
      docs := docs[noteId := docs[noteId].(title := title, content := content, updatedAt := now)];
      r := Success(());
    }

    /** `deleteNote`: removes the document; removing an absent id changes nothing. */
    method DeleteNote(noteId: NoteId, reply: Reply) returns (r: Result<(), Error>)
      requires Valid()
      modifies this`docs
      ensures Valid()
      ensures reply.Failed? ==> r == Failure(Store(reply.failure)) && docs == old(docs)
      ensures reply.Delivered? ==> r.Success? && docs == old(docs) - {noteId}
    {
      if reply.Failed? {
        return Failure(Store(reply.failure));
      }
      docs := docs - {noteId};
      r := Success(());
    }

    /** The store side of `getDocs(query(where('userId', '==', u), orderBy('updatedAt', 'desc')))`. */
    method QueryByOwner(userId: UserId) returns (snap: seq<Doc>)
      ensures IsOwnerSnapshot(docs, userId, snap)
    {
      snap := [];
      var pending := docs.Keys;
      while pending != {}
        invariant pending <= docs.Keys
        invariant forall d | d in snap ::
          d.id in docs && d.id !in pending && docs[d.id] == d.data && d.data.userId == userId
        invariant forall id | id in docs && id !in pending && docs[id].userId == userId :: Doc(id, docs[id]) in snap
        invariant DistinctDocIds(snap) && DescendingDocs(snap)
        decreases pending
      {
        var id :| id in pending;
        pending := pending - {id};
        if docs[id].userId == userId {
          InsertDocDescending(snap, Doc(id, docs[id]));
          InsertDocDistinct(snap, Doc(id, docs[id]));
          InsertDocMembers(snap, Doc(id, docs[id]));
          snap := InsertDoc(snap, Doc(id, docs[id]));
        }
      }
    }

    /** `getUserNotes`: the owner's notes, most recently updated first, each with its id. */
    method GetUserNotes(userId: UserId, reply: Reply) returns (r: Result<seq<Note>, Error>)
      ensures reply.Failed? ==> r == Failure(Store(reply.failure))
      ensures reply.Delivered? ==> r.Success? && IsOwnerListing(docs, userId, r.value)
    {
      if reply.Failed? {
        return Failure(Store(reply.failure));
      }
      var snap := QueryByOwner(userId);
      var notes: seq<Note> := [];
      for i := 0 to |snap|
        invariant |notes| == i
        invariant forall k | 0 <= k < i :: notes[k] == WithId(snap[k].id, snap[k].data)
      {
        notes := notes + [WithId(snap[i].id, snap[i].data)];
      }
      r := Success(notes);
    }

    /** `getNoteById`: the note with its id attached, or "Note not found". */
    method GetNoteById(noteId: NoteId, reply: Reply) returns (r: Result<Note, Error>)
      ensures reply.Failed? ==> r == Failure(Store(reply.failure))
      ensures reply.Delivered? && noteId in docs ==> r == Success(WithId(noteId, docs[noteId]))
      ensures reply.Delivered? && noteId !in docs ==> r == Failure(Thrown(NOTE_NOT_FOUND))
    {
      if reply.Failed? {
        return Failure(Store(reply.failure));
      }
      if noteId in docs {
        r := Success(WithId(noteId, docs[noteId]));
      } else {
        r := Failure(Thrown(NOTE_NOT_FOUND));
      }
    }
  }
}
