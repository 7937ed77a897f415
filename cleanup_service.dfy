/** The cleanup service: dataset rows uploaded before a cutoff together with their
    files, files of the upload directory that no dataset row names, and chat sessions
    created before a cutoff that hold no message. Removing a file and deleting a chat
    row are parameters that either succeed or give the text of the exception they
    raise; a failure is recorded and the sweep goes on with the next item. Timestamps
    are integers in microseconds, the resolution of `datetime`. */
module Cleanup {
  import opened Wrappers
  import Database
  import Chat

  /** An entry of the upload directory: its name and whether it is a regular file. */
  datatype Entry = Entry(name: string, regular: bool)

  /** A `dataset_metadata` row: its primary key and its columns. */
  datatype Row = Row(id: int, dataset: Database.Dataset)

  /** `os.remove` / `Path.unlink` on a file of the upload directory: `None` when it
      succeeds, the text of the exception it raises otherwise. */
  type Remover = string -> Option<string>

  /** `db.delete` on the chat session with the given id, in the same terms. */
  type Deleter = int -> Option<string>

  /** The entries of the `errors` lists. */
  datatype Failure =
    | DatasetFailed(id: int, reason: string)
    | OrphanFailed(name: string, reason: string)
    | ChatFailed(id: int, reason: string)

  datatype DatasetStats = DatasetStats(filesDeleted: nat, recordsDeleted: nat, errors: seq<Failure>)

  datatype OrphanStats = OrphanStats(orphanedFilesDeleted: nat, errors: seq<Failure>)

  datatype ChatStats = ChatStats(emptyChatsDeleted: nat, errors: seq<Failure>)

  /** What `run_all_cleanups` returns. */
  datatype AllStats = AllStats(datasets: DatasetStats, orphanedFiles: OrphanStats, emptyChats: ChatStats, timestamp: int)

  /** `timedelta(days=1)` in microseconds. */
  const Day: int := 86_400_000_000

  /** `datetime.utcnow() - timedelta(days=daysOld)` */
  function Cutoff(now: int, daysOld: int): int {
    now - daysOld * Day
  }

  // ------------------------------------------------------------------------------
  // Selection

  /** The elements that satisfy `keep`, in order: a query's `filter`, and the rows
      left once a transaction's deletions are committed. */
  function Filter<T(!new)>(xs: seq<T>, keep: T -> bool): (r: seq<T>)
    ensures |r| <= |xs|
    ensures forall x :: x in r <==> x in xs && keep(x)
  {
    if xs == [] then []
    else
      assert xs == xs[..|xs| - 1] + [xs[|xs| - 1]];
      Filter(xs[..|xs| - 1], keep) + (if keep(xs[|xs| - 1]) then [xs[|xs| - 1]] else [])
  }

  /** No two elements share a key: primary keys, and names within a directory. */
  predicate Distinct<T, K(==)>(xs: seq<T>, key: T -> K) {
    forall i, j :: 0 <= i < j < |xs| ==> key(xs[i]) != key(xs[j])
  }

  /** A selection of distinct elements is distinct. */
  lemma {:induction false} FilterDistinct<T(!new), K>(xs: seq<T>, keep: T -> bool, key: T -> K)
    requires Distinct(xs, key)
    ensures Distinct(Filter(xs, keep), key)
  {
    if xs != [] {
      var init, last := xs[..|xs| - 1], xs[|xs| - 1];
      FilterDistinct(init, keep, key);
      var r := Filter(init, keep);
      if keep(last) {
        forall i | 0 <= i < |r| ensures key(r[i]) != key(last) {
          assert r[i] in init;
          var k :| 0 <= k < |init| && init[k] == r[i];
          assert xs[k] == init[k];
        }
      }
    }
  }

  /** Two elements of a sequence with distinct keys that share a key are equal. */
  lemma DistinctKey<T, K>(xs: seq<T>, key: T -> K, a: T, b: T)
    requires Distinct(xs, key) && a in xs && b in xs
    ensures key(a) == key(b) ==> a == b
  {
    var i :| 0 <= i < |xs| && xs[i] == a;
    var j :| 0 <= j < |xs| && xs[j] == b;
    if i < j {
      assert key(xs[i]) != key(xs[j]);
    } else if j < i {
      assert key(xs[j]) != key(xs[i]);
    }
  }

  function RowId(row: Row): int { row.id }

  function EntryName(e: Entry): string { e.name }

  function SessionId(s: Chat.Session): int { s.id }

  /** `DatasetMetadata.upload_timestamp < cutoff` */
  function UploadedBefore(cutoff: int): Row -> bool {
    (row: Row) => row.dataset.uploadedAt < cutoff
  }

  /** `ChatSession.created_at < cutoff` */
  function CreatedBefore(cutoff: int): Chat.Session -> bool {
    (s: Chat.Session) => s.createdAt < cutoff
  }

  /** The rows whose deletion was not committed. */
  function RowNotIn(ids: seq<int>): Row -> bool {
    (row: Row) => row.id !in ids
  }

  function SessionNotIn(ids: seq<int>): Chat.Session -> bool {
    (s: Chat.Session) => s.id !in ids
  }

  /** The directory after the file with the given name is removed. */
  function NotNamed(name: string): Entry -> bool {
    (e: Entry) => e.name != name
  }

  /** `os.path.exists(os.path.join(UPLOAD_DIR, name))` */
  predicate Present(entries: seq<Entry>, name: string) {
    exists e :: e in entries && e.name == name
  }

  /** Removing a present name from a directory of distinct names removes one entry. */
  lemma {:induction false} RemoveOne(entries: seq<Entry>, name: string)
    requires Distinct(entries, EntryName) && Present(entries, name)
    ensures |Filter(entries, NotNamed(name))| == |entries| - 1
  {
    var init, last := entries[..|entries| - 1], entries[|entries| - 1];
    assert entries == init + [last];
    DistinctInit(entries, EntryName);
    if last.name == name {
      forall e | e in init ensures NotNamed(name)(e) {
        var k :| 0 <= k < |init| && init[k] == e;
        assert entries[k] == e;
      }
      FilterAll(init, NotNamed(name));
    } else {
      var e :| e in entries && e.name == name;
      assert e in init;
      RemoveOne(init, name);
    }
  }

  /** Without its last element a list of distinct keys stays distinct, and that last
      key occurs nowhere before it. */
  lemma DistinctInit<T, K>(xs: seq<T>, key: T -> K)
    requires xs != [] && Distinct(xs, key)
    ensures Distinct(xs[..|xs| - 1], key)
    ensures forall k :: 0 <= k < |xs| - 1 ==> key(xs[k]) != key(xs[|xs| - 1])
  {
  }

  /** A selection that keeps every element keeps them all. */
  lemma {:induction false} FilterAll<T(!new)>(xs: seq<T>, keep: T -> bool)
    requires forall x :: x in xs ==> keep(x)
    ensures Filter(xs, keep) == xs
  {
    if xs != [] {
      var init, last := xs[..|xs| - 1], xs[|xs| - 1];
      assert xs == init + [last];
      FilterAll(init, keep);
      assert keep(last);
    }
  }

  // ------------------------------------------------------------------------------
  // Old datasets

  /** The state of the dataset sweep: the upload directory, the ids of the rows marked
      for deletion, and the statistics. */
  datatype DatasetSweep = DatasetSweep(entries: seq<Entry>, deleted: seq<int>, stats: DatasetStats)

  /** One selected row: its file, when present, is removed and counted, then the row is
      marked and counted; a failing removal records an error and leaves the row. */
  function DatasetStep(s: DatasetSweep, row: Row, remove: Remover): DatasetSweep {
    var name := row.dataset.filename;
    if !Present(s.entries, name) then
      s.(deleted := s.deleted + [row.id], stats := s.stats.(recordsDeleted := s.stats.recordsDeleted + 1))
    else match remove(name)
      case Some(reason) => s.(stats := s.stats.(errors := s.stats.errors + [DatasetFailed(row.id, reason)]))
      case None =>
        DatasetSweep(
          Filter(s.entries, NotNamed(name)),
          s.deleted + [row.id],
          DatasetStats(s.stats.filesDeleted + 1, s.stats.recordsDeleted + 1, s.stats.errors))
  }

  /** The selected rows, one after the other. */
  function SweepDatasets(rows: seq<Row>, entries: seq<Entry>, remove: Remover): DatasetSweep {
    if rows == [] then DatasetSweep(entries, [], DatasetStats(0, 0, []))
    else DatasetStep(SweepDatasets(rows[..|rows| - 1], entries, remove), rows[|rows| - 1], remove)
  }

  function Ids(rows: seq<Row>): set<int> {
    set row | row in rows :: row.id
  }

  /** The ids of the rows whose file could not be removed. */
  function FailedIds(errors: seq<Failure>): set<int> {
    set f | f in errors && f.DatasetFailed? :: f.id
  }

  /** Every selected row is either deleted or reported, so a failure does not stop the
      sweep; the record counter counts every deleted row, and the file counter at most
      as many; the directory only loses entries. */
  lemma {:induction false} DatasetSweepCounts(rows: seq<Row>, entries: seq<Entry>, remove: Remover)
    ensures var s := SweepDatasets(rows, entries, remove);
      && s.stats.recordsDeleted == |s.deleted|
      && s.stats.recordsDeleted + |s.stats.errors| == |rows|
      && s.stats.filesDeleted <= s.stats.recordsDeleted
      && (forall e :: e in s.entries ==> e in entries)
  {
    if rows != [] {
      DatasetSweepCounts(rows[..|rows| - 1], entries, remove);
    }
  }

  /** Only selected rows are deleted, and each selected row is deleted or reported. */
  lemma {:induction false} DatasetSweepCovers(rows: seq<Row>, entries: seq<Entry>, remove: Remover)
    ensures var s := SweepDatasets(rows, entries, remove);
      && (forall id :: id in s.deleted ==> id in Ids(rows))
      && (forall i :: 0 <= i < |rows| ==> rows[i].id in s.deleted || rows[i].id in FailedIds(s.stats.errors))
  {
    if rows != [] {
      var init, last := rows[..|rows| - 1], rows[|rows| - 1];
      DatasetSweepCovers(init, entries, remove);
      var p := SweepDatasets(init, entries, remove);
      assert forall i :: 0 <= i < |init| ==> rows[i] == init[i];
      assert Ids(init) <= Ids(rows) by {
        forall id | id in Ids(init) ensures id in Ids(rows) {
          var row :| row in init && row.id == id;
          assert row in rows;
        }
      }
      assert last in rows;
      var s := DatasetStep(p, last, remove);
      assert FailedIds(p.stats.errors) <= FailedIds(s.stats.errors);
    }
  }

  /** With distinct names in the directory, the file counter is exactly the number of
      entries the sweep removed: only files that existed are counted. */
  lemma {:induction false} DatasetSweepFiles(rows: seq<Row>, entries: seq<Entry>, remove: Remover)
    requires Distinct(entries, EntryName)
    ensures var s := SweepDatasets(rows, entries, remove);
      && Distinct(s.entries, EntryName)
      && |s.entries| + s.stats.filesDeleted == |entries|
  {
    if rows != [] {
      var init, last := rows[..|rows| - 1], rows[|rows| - 1];
      DatasetSweepFiles(init, entries, remove);
      var p := SweepDatasets(init, entries, remove);
      var name := last.dataset.filename;
      if Present(p.entries, name) && remove(name).None? {
        FilterDistinct(p.entries, NotNamed(name), EntryName);
        RemoveOne(p.entries, name);
      }
    }
  }

  /** `cleanup_old_datasets`: exactly the rows uploaded strictly before the cutoff are
      swept. With distinct primary keys, a row uploaded at or after the cutoff is never
      deleted, and a row before it is deleted unless its file could not be removed. */
  lemma OldDatasetsRule(rows: seq<Row>, cutoff: int, entries: seq<Entry>, remove: Remover)
    requires Distinct(rows, RowId)
    ensures var s := SweepDatasets(Filter(rows, UploadedBefore(cutoff)), entries, remove);
      var after := Filter(rows, RowNotIn(s.deleted));
      && (forall row :: row in rows && row.dataset.uploadedAt >= cutoff ==> row in after)
      && (forall row :: row in rows && row !in after ==> row.dataset.uploadedAt < cutoff)
      && (forall row :: row in rows && row.dataset.uploadedAt < cutoff ==> row !in after || row.id in FailedIds(s.stats.errors))
  {
    var selected := Filter(rows, UploadedBefore(cutoff));
    var s := SweepDatasets(selected, entries, remove);
    DatasetSweepCovers(selected, entries, remove);
    forall row | row in rows && row.dataset.uploadedAt >= cutoff
      ensures row.id !in Ids(selected)
    {
      forall other | other in selected ensures other.id != row.id {
        DistinctKey(rows, RowId, row, other);
      }
    }
    forall row | row in rows && row.dataset.uploadedAt < cutoff
      ensures row.id in s.deleted || row.id in FailedIds(s.stats.errors)
    {
      assert row in selected;
      var i :| 0 <= i < |selected| && selected[i] == row;
    }
  }

  // ------------------------------------------------------------------------------
  // Orphaned files

  /** A regular file that no dataset row names and that is not `.gitkeep`. */
  predicate Orphan(e: Entry, known: set<string>) {
    e.regular && e.name !in known && e.name != ".gitkeep"
  }

  function IsOrphan(known: set<string>): Entry -> bool {
    (e: Entry) => Orphan(e, known)
  }

  /** The entry stays unless it is an orphan and unlinking it succeeds. */
  function Survives(known: set<string>, unlink: Remover): Entry -> bool {
    (e: Entry) => !(Orphan(e, known) && unlink(e.name).None?)
  }

  /** `{dataset.filename for dataset in db.query(DatasetMetadata).all()}` */
  function Filenames(rows: seq<Row>): set<string> {
    set row | row in rows :: row.dataset.filename
  }

  /** The statistics of the orphan sweep over the directory listing, in order. */
  function SweepOrphans(entries: seq<Entry>, known: set<string>, unlink: Remover): OrphanStats {
    if entries == [] then OrphanStats(0, [])
    else
      var p := SweepOrphans(entries[..|entries| - 1], known, unlink);
      var e := entries[|entries| - 1];
      if !Orphan(e, known) then p
      else match unlink(e.name)
        case Some(reason) => p.(errors := p.errors + [OrphanFailed(e.name, reason)])
        case None => p.(orphanedFilesDeleted := p.orphanedFilesDeleted + 1)
  }

  /** Every orphan is either removed and counted or reported, and the counter is the
      number of entries that left the directory. */
  lemma {:induction false} OrphanSweepCounts(entries: seq<Entry>, known: set<string>, unlink: Remover)
    ensures var s := SweepOrphans(entries, known, unlink);
      && s.orphanedFilesDeleted + |s.errors| == |Filter(entries, IsOrphan(known))|
      && |Filter(entries, Survives(known, unlink))| + s.orphanedFilesDeleted == |entries|
      && (forall f :: f in s.errors ==> f.OrphanFailed? && unlink(f.name).Some?)
  {
    if entries != [] {
      OrphanSweepCounts(entries[..|entries| - 1], known, unlink);
    }
  }

  // ------------------------------------------------------------------------------
  // Empty chats

  /** `ChatMessage.chat_session_id == id` counts no message. */
  predicate EmptyChat(messages: seq<Chat.Message>, id: int) {
    |Chat.History(messages, id)| == 0
  }

  datatype ChatSweep = ChatSweep(deleted: seq<int>, stats: ChatStats)

  /** The selected sessions, one after the other: an empty one is marked and counted, or
      reported when its deletion fails; one with messages is left alone. */
  function SweepChats(selected: seq<Chat.Session>, messages: seq<Chat.Message>, delete: Deleter): ChatSweep {
    if selected == [] then ChatSweep([], ChatStats(0, []))
    else
      var p := SweepChats(selected[..|selected| - 1], messages, delete);
      var id := selected[|selected| - 1].id;
      if !EmptyChat(messages, id) then p
      else match delete(id)
        case Some(reason) => p.(stats := p.stats.(errors := p.stats.errors + [ChatFailed(id, reason)]))
        case None => ChatSweep(p.deleted + [id], p.stats.(emptyChatsDeleted := p.stats.emptyChatsDeleted + 1))
  }

  /** The marked sessions are exactly the selected empty ones whose deletion succeeded,
      and the counter counts them. */
  lemma {:induction false} ChatSweepMarks(selected: seq<Chat.Session>, messages: seq<Chat.Message>, delete: Deleter)
    requires Distinct(selected, SessionId)
    ensures var s := SweepChats(selected, messages, delete);
      && s.stats.emptyChatsDeleted == |s.deleted|
      && s.stats.emptyChatsDeleted + |s.stats.errors| <= |selected|
      && (forall id :: id in s.deleted <==>
            (exists c :: c in selected && c.id == id) && EmptyChat(messages, id) && delete(id).None?)
  {
    if selected != [] {
      var init, last := selected[..|selected| - 1], selected[|selected| - 1];
      assert selected == init + [last];
      forall i, j | 0 <= i < j < |init| ensures SessionId(init[i]) != SessionId(init[j]) {
        assert init[i] == selected[i] && init[j] == selected[j];
      }
      ChatSweepMarks(init, messages, delete);
      var p := SweepChats(init, messages, delete);
      forall id | id in p.deleted ensures id != last.id {
        var c :| c in init && c.id == id;
        var k :| 0 <= k < |init| && init[k] == c;
        assert SessionId(selected[k]) != SessionId(selected[|selected| - 1]);
      }
    }
  }

  /** `cleanup_empty_chats`: with distinct primary keys, a session is deleted exactly
      when it was created before the cutoff, holds no message and its deletion
      succeeds. */
  lemma EmptyChatsRule(sessions: seq<Chat.Session>, messages: seq<Chat.Message>, cutoff: int, delete: Deleter)
    requires Distinct(sessions, SessionId)
    ensures var s := SweepChats(Filter(sessions, CreatedBefore(cutoff)), messages, delete);
      var after := Filter(sessions, SessionNotIn(s.deleted));
      forall c :: c in sessions ==>
        (c !in after <==> c.createdAt < cutoff && EmptyChat(messages, c.id) && delete(c.id).None?)
  {
    var selected := Filter(sessions, CreatedBefore(cutoff));
    FilterDistinct(sessions, CreatedBefore(cutoff), SessionId);
    ChatSweepMarks(selected, messages, delete);
    var s := SweepChats(selected, messages, delete);
    var after := Filter(sessions, SessionNotIn(s.deleted));
    forall c | c in sessions
      ensures c !in after <==> c.createdAt < cutoff && EmptyChat(messages, c.id) && delete(c.id).None?
    {
      assert c in after <==> c.id !in s.deleted;
      if c.id in s.deleted {
        var other :| other in selected && other.id == c.id;
        SameKey(sessions, SessionId, c, other);
      } else if c.createdAt < cutoff {
        assert c in selected;
      }
    }
  }

  /** In a list of distinct keys, two elements with the same key are the same. */
  lemma SameKey<T, K>(xs: seq<T>, key: T -> K, x: T, y: T)
    requires Distinct(xs, key) && x in xs && y in xs && key(x) == key(y)
    ensures x == y
  {
    var i :| 0 <= i < |xs| && xs[i] == x;
    var j :| 0 <= j < |xs| && xs[j] == y;
    assert !(i < j) && !(j < i);
  }

  // ------------------------------------------------------------------------------
  // The service

  /** The rows and files the service cleans: the `dataset_metadata` rows, the upload
      directory, and the chat tables. */
  class CleanupService {
    var rows: seq<Row>
    var entries: seq<Entry>
    var sessions: seq<Chat.Session>
    var messages: seq<Chat.Message>

    /** Primary keys are distinct, and so are the names in the directory. */
    predicate Valid()
      reads this
    {
      Distinct(rows, RowId) && Distinct(entries, EntryName) && Distinct(sessions, SessionId)
    }

    constructor (rows: seq<Row>, entries: seq<Entry>, sessions: seq<Chat.Session>, messages: seq<Chat.Message>)
      requires Distinct(rows, RowId) && Distinct(entries, EntryName) && Distinct(sessions, SessionId)
      ensures Valid()
      ensures this.rows == rows && this.entries == entries && this.sessions == sessions && this.messages == messages
    {
      this.rows := rows;
      this.entries := entries;
      this.sessions := sessions;
      this.messages := messages;
    }

    /** `cleanup_old_datasets`: files are removed as the sweep goes, the row deletions
        are committed at the end. */
    method CleanupOldDatasets(daysOld: int, now: int, remove: Remover) returns (stats: DatasetStats)
      requires Valid()
      modifies this
      ensures Valid()
      ensures var s := SweepDatasets(Filter(old(rows), UploadedBefore(Cutoff(now, daysOld))), old(entries), remove);
        && stats == s.stats
        && entries == s.entries
        && rows == Filter(old(rows), RowNotIn(s.deleted))
      ensures sessions == old(sessions) && messages == old(messages)
    {
      var selected := Filter(rows, UploadedBefore(Cutoff(now, daysOld)));
      var filesDeleted, recordsDeleted, errors, deleted := 0, 0, [], [];
      var i := 0;
      while i < |selected|
        invariant 0 <= i <= |selected|
        invariant SweepDatasets(selected[..i], old(entries), remove) == DatasetSweep(entries, deleted, DatasetStats(filesDeleted, recordsDeleted, errors))
        invariant Distinct(entries, EntryName)
        invariant rows == old(rows) && sessions == old(sessions) && messages == old(messages)
      {
        var row := selected[i];
        var name := row.dataset.filename;
        ghost var prev := DatasetSweep(entries, deleted, DatasetStats(filesDeleted, recordsDeleted, errors));
        if Present(entries, name) {
          var failure := remove(name);
          if failure.Some? {
            errors := errors + [DatasetFailed(row.id, failure.value)];
          } else {
            FilterDistinct(entries, NotNamed(name), EntryName);
            entries := Filter(entries, NotNamed(name));
            filesDeleted := filesDeleted + 1;
            deleted := deleted + [row.id];
            recordsDeleted := recordsDeleted + 1;
          }
        } else {
          deleted := deleted + [row.id];
          recordsDeleted := recordsDeleted + 1;
        }
        assert DatasetSweep(entries, deleted, DatasetStats(filesDeleted, recordsDeleted, errors)) == DatasetStep(prev, row, remove);
        assert selected[..i + 1][..i] == selected[..i];
        i := i + 1;
      }
      assert selected[..|selected|] == selected;
      FilterDistinct(rows, RowNotIn(deleted), RowId);
      rows := Filter(rows, RowNotIn(deleted));
      stats := DatasetStats(filesDeleted, recordsDeleted, errors);
    }

    /** `cleanup_orphaned_files`: the listing is walked in order and every orphan is
        unlinked. */
    method CleanupOrphanedFiles(unlink: Remover) returns (stats: OrphanStats)
      requires Valid()
      modifies this
      ensures Valid()
      ensures stats == SweepOrphans(old(entries), Filenames(old(rows)), unlink)
      ensures entries == Filter(old(entries), Survives(Filenames(old(rows)), unlink))
      ensures rows == old(rows) && sessions == old(sessions) && messages == old(messages)
    {
      var known := Filenames(rows);
      var listing := entries;
      var kept := [];
      var deletedCount, errors := 0, [];
      var i := 0;
      while i < |listing|
        invariant 0 <= i <= |listing|
        invariant SweepOrphans(listing[..i], known, unlink) == OrphanStats(deletedCount, errors)
        invariant kept == Filter(listing[..i], Survives(known, unlink))
        modifies {}
      {
        var e := listing[i];
        assert listing[..i + 1][..i] == listing[..i];
        if Orphan(e, known) {
          var failure := unlink(e.name);
          if failure.Some? {
            errors := errors + [OrphanFailed(e.name, failure.value)];
            kept := kept + [e];
          } else {
            deletedCount := deletedCount + 1;
          }
        } else {
          kept := kept + [e];
        }
        i := i + 1;
      }
      assert listing[..|listing|] == listing;
      FilterDistinct(listing, Survives(known, unlink), EntryName);
      entries := kept;
      stats := OrphanStats(deletedCount, errors);
    }

    /** `cleanup_empty_chats`: the deletions are committed at the end. */
    method CleanupEmptyChats(daysOld: int, now: int, delete: Deleter) returns (stats: ChatStats)
      requires Valid()
      modifies this
      ensures Valid()
      ensures var s := SweepChats(Filter(old(sessions), CreatedBefore(Cutoff(now, daysOld))), old(messages), delete);
        && stats == s.stats
        && sessions == Filter(old(sessions), SessionNotIn(s.deleted))
      ensures rows == old(rows) && entries == old(entries) && messages == old(messages)
    {
      var selected := Filter(sessions, CreatedBefore(Cutoff(now, daysOld)));
      var deleted, deletedCount, errors := [], 0, [];
      var i := 0;
      while i < |selected|
        invariant 0 <= i <= |selected|
        invariant SweepChats(selected[..i], messages, delete) == ChatSweep(deleted, ChatStats(deletedCount, errors))
        modifies {}
      {
        var chat := selected[i];
        assert selected[..i + 1][..i] == selected[..i];
        if |Chat.History(messages, chat.id)| == 0 {
          var failure := delete(chat.id);
          if failure.Some? {
            errors := errors + [ChatFailed(chat.id, failure.value)];
          } else {
            deleted := deleted + [chat.id];
            deletedCount := deletedCount + 1;
          }
        }
        i := i + 1;
      }
      assert selected[..|selected|] == selected;
      FilterDistinct(sessions, SessionNotIn(deleted), SessionId);
      sessions := Filter(sessions, SessionNotIn(deleted));
      stats := ChatStats(deletedCount, errors);
    }

    /** `run_all_cleanups`: datasets older than one day, then orphaned files against the
        rows that remain, then empty chats older than seven days. */
    method RunAllCleanups(now: int, remove: Remover, unlink: Remover, delete: Deleter) returns (all: AllStats)
      requires Valid()
      modifies this
      ensures Valid()
      ensures
        var d := SweepDatasets(Filter(old(rows), UploadedBefore(Cutoff(now, 1))), old(entries), remove);
        var kept := Filter(old(rows), RowNotIn(d.deleted));
        var c := SweepChats(Filter(old(sessions), CreatedBefore(Cutoff(now, 7))), old(messages), delete);
        && all == AllStats(d.stats, SweepOrphans(d.entries, Filenames(kept), unlink), c.stats, now)
        && rows == kept
        && entries == Filter(d.entries, Survives(Filenames(kept), unlink))
        && sessions == Filter(old(sessions), SessionNotIn(c.deleted))
        && messages == old(messages)
    {
      var datasets := CleanupOldDatasets(1, now, remove);
      var orphans := CleanupOrphanedFiles(unlink);
      var chats := CleanupEmptyChats(7, now, delete);
      all := AllStats(datasets, orphans, chats, now);
    }
  }

  /** After `run_all_cleanups`, every regular file of the directory other than
      `.gitkeep` is named by a remaining dataset row, unless unlinking it failed. */
  lemma NoOrphanLeft(entries: seq<Entry>, rows: seq<Row>, unlink: Remover)
    ensures forall e :: e in Filter(entries, Survives(Filenames(rows), unlink)) && e.regular && e.name != ".gitkeep" ==>
      (exists row :: row in rows && row.dataset.filename == e.name) || unlink(e.name).Some?
  {
    forall e | e in Filter(entries, Survives(Filenames(rows), unlink)) && e.regular && e.name != ".gitkeep" && unlink(e.name).None?
      ensures exists row :: row in rows && row.dataset.filename == e.name
    {
      assert e.name in Filenames(rows);
    }
  }
}
