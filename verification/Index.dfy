/** The agent's table of what it last sent: one row per server, user and archive path. */
module Index {
  import opened Model
  import opened Patches

  datatype Key = Key(server: string, user: string, path: string)

  datatype Meta = Meta(size: int, mtime: int, mode: Mode, sha: Bytes)

  datatype Row = Row(path: string, meta: Meta)

  function MetaOf(f: FileInfo): Meta { Meta(f.size, f.mtime, f.mode, f.sha) }

  /** The rows of one server and user, by path. */
  ghost function View(rows: map<Key, Meta>, server: string, user: string): map<string, Meta> {
    map k | k in rows && k.server == server && k.user == user :: k.path := rows[k]
  }

  /** Everything that belongs to other servers or users is the same. */
  ghost predicate OthersSame(a: map<Key, Meta>, b: map<Key, Meta>, server: string, user: string) {
    forall k: Key :: k.server != server || k.user != user ==> Lookup(a, k) == Lookup(b, k)
  }

  function PathsOf(rows: seq<Row>): set<string> { set i | 0 <= i < |rows| :: rows[i].path }

  /** A listing: every row of the view exactly once, in an order the table does not promise. */
  ghost predicate Lists(rows: seq<Row>, view: map<string, Meta>) {
    && (forall i :: 0 <= i < |rows| ==> rows[i].path in view && view[rows[i].path] == rows[i].meta)
    && (forall i, j :: 0 <= i < j < |rows| ==> rows[i].path != rows[j].path)
    && PathsOf(rows) == view.Keys
  }

  function IndexEdit(d: FileDiff): Edit<Meta> {
    Edit(d.file.path, if d.action == Delete then None else Some(MetaOf(d.file)))
  }

  function IndexEdits(diffs: seq<FileDiff>): (es: seq<Edit<Meta>>)
    ensures |es| == |diffs| && forall i :: 0 <= i < |es| ==> es[i] == IndexEdit(diffs[i])
  {
    seq(|diffs|, i requires 0 <= i < |diffs| => IndexEdit(diffs[i]))
  }

  lemma {:induction false} ViewUpsert(rows: map<Key, Meta>, server: string, user: string, path: string, meta: Meta)
    ensures View(rows[Key(server, user, path) := meta], server, user) == View(rows, server, user)[path := meta]
  {
    var key := Key(server, user, path);
    var a, b := View(rows[key := meta], server, user), View(rows, server, user)[path := meta];
    forall p ensures Lookup(a, p) == Lookup(b, p) {
      assert p in View(rows, server, user) <==> Key(server, user, p) in rows;
      assert p in a <==> Key(server, user, p) in rows[key := meta];
    }
    SameLookups(a, b);
  }

  lemma {:induction false} ViewDelete(rows: map<Key, Meta>, server: string, user: string, path: string)
    ensures View(rows - {Key(server, user, path)}, server, user) == View(rows, server, user) - {path}
  {
    var a, b := View(rows - {Key(server, user, path)}, server, user), View(rows, server, user) - {path};
    forall p ensures Lookup(a, p) == Lookup(b, p) {
      assert p in View(rows, server, user) <==> Key(server, user, p) in rows;
      assert p in a <==> Key(server, user, p) in rows - {Key(server, user, path)};
    }
    SameLookups(a, b);
  }

  lemma {:induction false} OthersStep(a: map<Key, Meta>, b: map<Key, Meta>, c: map<Key, Meta>, server: string,
                                      user: string, d: FileDiff)
    requires OthersSame(a, b, server, user)
    requires var k := Key(server, user, d.file.path);
      c == if d.action == Delete then b - {k} else b[k := MetaOf(d.file)]
    ensures OthersSame(a, c, server, user)
  {
    forall k: Key | k.server != server || k.user != user ensures Lookup(a, k) == Lookup(c, k) {
      assert Lookup(a, k) == Lookup(b, k);
    }
  }

  /** A listing in progress: the rows not yet visited are `todo`. */
  ghost predicate Listed(rows: map<Key, Meta>, server: string, user: string, todo: set<Key>, snaps: seq<Row>) {
    && (forall k :: k in todo ==> k in rows && k.server == server && k.user == user)
    && (forall i :: 0 <= i < |snaps| ==>
          var k := Key(server, user, snaps[i].path); k in rows && rows[k] == snaps[i].meta && k !in todo)
    && (forall i, j :: 0 <= i < j < |snaps| ==> snaps[i].path != snaps[j].path)
    && (forall p :: Key(server, user, p) in rows ==> p in PathsOf(snaps) || Key(server, user, p) in todo)
  }

  lemma {:induction false} ListedStart(rows: map<Key, Meta>, server: string, user: string)
    ensures Listed(rows, server, user, set k | k in rows && k.server == server && k.user == user, [])
  {}

  lemma {:induction false} RowsSnoc(snaps: seq<Row>, row: Row)
    ensures PathsOf(snaps + [row]) == PathsOf(snaps) + {row.path}
  {
    assert (snaps + [row])[|snaps|] == row;
    assert forall i :: 0 <= i < |snaps| ==> (snaps + [row])[i] == snaps[i];
  }

  lemma {:induction false} ListedStep(rows: map<Key, Meta>, server: string, user: string, todo: set<Key>,
                                      snaps: seq<Row>, k: Key)
    requires Listed(rows, server, user, todo, snaps) && k in todo
    ensures k in rows && Listed(rows, server, user, todo - {k}, snaps + [Row(k.path, rows[k])])
  {
    hide PathsOf;
    RowsSnoc(snaps, Row(k.path, rows[k]));
    assert k == Key(server, user, k.path);
  }

  lemma {:induction false} ListedDone(rows: map<Key, Meta>, server: string, user: string, snaps: seq<Row>)
    requires Listed(rows, server, user, {}, snaps)
    ensures Lists(snaps, View(rows, server, user))
  {
    var view := View(rows, server, user);
    assert forall p :: p in view <==> Key(server, user, p) in rows;
    assert PathsOf(snaps) == view.Keys;
  }

  class SnapshotTable {
    var rows: map<Key, Meta>

    constructor ()
      ensures rows == map[]
    {
      rows := map[];
    }

    method UpsertSnapshot(server: string, user: string, path: string, meta: Meta) returns (ok: bool)
      modifies this
      ensures rows == if ok then old(rows)[Key(server, user, path) := meta] else old(rows)
    {
      ok := *;
      if ok { rows := rows[Key(server, user, path) := meta]; }
    }

    method DeleteSnapshot(server: string, user: string, path: string) returns (ok: bool)
      modifies this
      ensures rows == if ok then old(rows) - {Key(server, user, path)} else old(rows)
    {
      ok := *;
      if ok { rows := rows - {Key(server, user, path)}; }
    }

    method ListUserSnapshots(server: string, user: string) returns (r: Result<seq<Row>, string>)
      ensures r.Ok? ==> Lists(r.value, View(rows, server, user))
    {
      hide *;
      var fault: bool := *;
      var snaps: seq<Row> := [];
      var todo := set k | k in rows && k.server == server && k.user == user;
      ListedStart(rows, server, user);
      while todo != {} && !fault
        invariant Listed(rows, server, user, todo, snaps)
        decreases todo
      {
        var k :| k in todo;
        ListedStep(rows, server, user, todo, snaps, k);
        snaps := snaps + [Row(k.path, rows[k])];
        todo := todo - {k};
      }
      if !fault { ListedDone(rows, server, user, snaps); }
      r := if fault then Err("query") else Ok(snaps);
    }

    /** One recorded difference. */
    method Record(server: string, user: string, d: FileDiff) returns (ok: bool)
      modifies this
      ensures View(rows, server, user) ==
        if ok then Apply1(old(View(rows, server, user)), IndexEdit(d)) else old(View(rows, server, user))
      ensures forall a :: OthersSame(a, old(rows), server, user) ==> OthersSame(a, rows, server, user)
    {
      ghost var was := rows;
      if d.action == Delete {
        ok := DeleteSnapshot(server, user, d.file.path);
        ViewDelete(was, server, user, d.file.path);
      } else {
        ok := UpsertSnapshot(server, user, d.file.path, Meta(d.file.size, d.file.mtime, d.file.mode, d.file.sha));
        ViewUpsert(was, server, user, d.file.path, MetaOf(d.file));
      }
      forall a | OthersSame(a, was, server, user) ensures OthersSame(a, rows, server, user) {
        if ok { OthersStep(a, was, rows, server, user, d); }
      }
    }

    /** The loop that records a pushed difference list. It may stop at any edit. */
    method UpdateSnapshots(server: string, user: string, diffs: seq<FileDiff>) returns (ok: bool, ghost done: nat)
      modifies this
      ensures done <= |diffs| && (ok <==> done == |diffs|)
      ensures View(rows, server, user) == Apply(old(View(rows, server, user)), IndexEdits(diffs)[..done])
      ensures OthersSame(old(rows), rows, server, user)
    {
      hide View;
      done := 0;
      ghost var edits := IndexEdits(diffs);
      for n := 0 to |diffs|
        invariant done == n
        invariant View(rows, server, user) == Apply(old(View(rows, server, user)), edits[..n])
        invariant OthersSame(old(rows), rows, server, user)
      {
        assert edits[..n + 1][..n] == edits[..n];
        ok := Record(server, user, diffs[n]);
        if !ok { return; }
        done := n + 1;
      }
      assert edits[..|diffs|] == edits;
      ok := true;
    }
  }
}
