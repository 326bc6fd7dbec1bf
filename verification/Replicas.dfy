/** The sync loops of several servers writing one table: the order in which they interleave does not
    matter. */
module Replicas {
  import opened Model
  import opened Patches
  import opened Index

  /** One row written or deleted by the loop of one server for one user. */
  datatype Write = Write(server: string, user: string, edit: Edit<Meta>)

  function Perform(rows: map<Key, Meta>, w: Write): map<Key, Meta> {
    var key := Key(w.server, w.user, w.edit.path);
    match w.edit.value
    case Some(meta) => rows[key := meta]
    case None => rows - {key}
  }

  function PerformAll(rows: map<Key, Meta>, ws: seq<Write>): map<Key, Meta>
    decreases |ws|
  {
    if ws == [] then rows else Perform(PerformAll(rows, ws[..|ws| - 1]), ws[|ws| - 1])
  }

  /** What the loop of one server did, in its own order. */
  function Own(ws: seq<Write>, server: string, user: string): seq<Edit<Meta>>
    decreases |ws|
  {
    if ws == [] then []
    else
      var before, w := Own(ws[..|ws| - 1], server, user), ws[|ws| - 1];
      if w.server == server && w.user == user then before + [w.edit] else before
  }

  lemma {:induction false} OtherView(a: map<Key, Meta>, b: map<Key, Meta>, server: string, user: string)
    requires forall p :: Lookup(a, Key(server, user, p)) == Lookup(b, Key(server, user, p))
    ensures View(a, server, user) == View(b, server, user)
  {
    var va, vb := View(a, server, user), View(b, server, user);
    forall p ensures Lookup(va, p) == Lookup(vb, p) {
      assert Lookup(a, Key(server, user, p)) == Lookup(b, Key(server, user, p));
      assert p in va <==> Key(server, user, p) in a;
      assert p in vb <==> Key(server, user, p) in b;
    }
    SameLookups(va, vb);
  }

  lemma {:induction false} PerformView(rows: map<Key, Meta>, w: Write, server: string, user: string)
    ensures var view := View(rows, server, user);
      View(Perform(rows, w), server, user) ==
        if w.server == server && w.user == user then Apply1(view, w.edit) else view
  {
    if w.server == server && w.user == user {
      match w.edit.value
      case Some(meta) => ViewUpsert(rows, server, user, w.edit.path, meta);
      case None => ViewDelete(rows, server, user, w.edit.path);
    } else {
      OtherView(Perform(rows, w), rows, server, user);
    }
  }

  /** A server's rows are what its own loop makes of them, whatever the other loops do in between. */
  lemma {:induction false} OwnWritesOnly(rows: map<Key, Meta>, ws: seq<Write>, server: string, user: string)
    ensures View(PerformAll(rows, ws), server, user) == Apply(View(rows, server, user), Own(ws, server, user))
    decreases |ws|
  {
    hide View;
    if ws != [] {
      var before, w := ws[..|ws| - 1], ws[|ws| - 1];
      OwnWritesOnly(rows, before, server, user);
      PerformView(PerformAll(rows, before), w, server, user);
      var own := Own(before, server, user);
      assert (own + [w.edit])[..|own|] == own;
    }
  }

  lemma {:induction false} SameViews(a: map<Key, Meta>, b: map<Key, Meta>)
    requires forall server, user :: View(a, server, user) == View(b, server, user)
    ensures a == b
  {
    forall k: Key ensures Lookup(a, k) == Lookup(b, k) {
      var va, vb := View(a, k.server, k.user), View(b, k.server, k.user);
      assert va == vb;
      assert k == Key(k.server, k.user, k.path);
      assert k.path in va <==> k in a;
      assert k.path in vb <==> k in b;
    }
    forall k: Key ensures k in a <==> k in b { assert Lookup(a, k) == Lookup(b, k); }
    forall k: Key | k in a ensures a[k] == b[k] { assert Lookup(a, k) == Lookup(b, k); }
  }

  // ---- one server's loop, step by step -------------------------------------------------------

  /** What the loop of one server meets outside the table. Whether attempt k reaches the server at all; how
      many roots it covers; what difference it computes for a root from the rows it listed, in whatever order
      (none: the scan, the names or the database failed); whether the server answers the last of all the lists
      sent so far with success; whether the n-th write goes through; whether a failure to reach the server or
      to push is followed by another attempt. */
  datatype World = World(reached: nat -> bool,
                         roots: nat -> nat,
                         differ: (nat, nat, map<string, Meta>) -> Option<seq<FileDiff>>,
                         answer: seq<seq<FileDiff>> -> bool,
                         written: nat -> bool,
                         again: nat -> bool)

  datatype Stage =
    | Connecting
    | Listing(root: nat)
    | Pushing(i: nat)
    | Recording(i: nat, n: nat)
    | Stopped(ok: bool)

  /** The loop: attempt number, where it is, the differences of the attempt, everything it has sent and how
      much of that in earlier attempts, and the number of writes it has made. */
  datatype Loop = Loop(world: World, attempt: nat, stage: Stage, plans: seq<seq<FileDiff>>, sent: seq<seq<FileDiff>>,
                       before: nat, writes: nat)

  function Begin(world: World): Loop { Loop(world, 0, Connecting, [], [], 0, 0) }

  /** After a failure that may pass. */
  function Retried(l: Loop): Loop {
    if l.world.again(l.attempt) then
      l.(attempt := l.attempt + 1, stage := Connecting, plans := [], before := |l.sent|)
    else l.(stage := Stopped(false))
  }

  /** One step: reach the server, list the rows and compute one root's difference, push the next difference,
      or write one row. It sees the rows of its own server and user and no others. */
  ghost function Advance(l: Loop, view: map<string, Meta>): (Loop, Option<Edit<Meta>>) {
    match l.stage
    case Connecting =>
      if l.world.reached(l.attempt) then (l.(stage := Listing(0)), None) else (Retried(l), None)
    case Listing(root) =>
      if root >= l.world.roots(l.attempt) then (l.(stage := Pushing(0)), None)
      else (match l.world.differ(l.attempt, root, view)
            case None => (l.(stage := Stopped(false)), None)
            case Some(diffs) =>
              (l.(stage := Listing(root + 1), plans := if diffs == [] then l.plans else l.plans + [diffs]), None))
    case Pushing(i) =>
      if i >= |l.plans| then (l.(stage := Stopped(true)), None)
      else
        var sent := l.sent + [l.plans[i]];
        if l.world.answer(sent) then (l.(stage := Recording(i, 0), sent := sent), None)
        else (Retried(l.(sent := sent)), None)
    case Recording(i, n) =>
      if i >= |l.plans| || n >= |l.plans[i]| then (l.(stage := Pushing(i + 1)), None)
      else if l.world.written(l.writes) then
        (l.(stage := Recording(i, n + 1), writes := l.writes + 1), Some(IndexEdit(l.plans[i][n])))
      else (l.(stage := Stopped(false)), None)
    case Stopped(_) => (l, None)
  }

  datatype Who = Who(server: string, user: string)

  /** The table, the loops that share it, and everything they wrote. */
  datatype System = System(rows: map<Key, Meta>, loops: map<Who, Loop>, log: seq<Write>)

  ghost function Turn(sys: System, who: Who): System {
    if who !in sys.loops then sys
    else
      var (l, w) := Advance(sys.loops[who], View(sys.rows, who.server, who.user));
      var loops := sys.loops[who := l];
      if w.None? then sys.(loops := loops)
      else
        var write := Write(who.server, who.user, w.value);
        System(Perform(sys.rows, write), loops, sys.log + [write])
  }

  /** An interleaving: whose turn it is, again and again. */
  ghost function Interleave(sys: System, turns: seq<Who>): System
    decreases |turns|
  {
    if turns == [] then sys else Turn(Interleave(sys, turns[..|turns| - 1]), turns[|turns| - 1])
  }

  /** The loop with a table to itself: its state, its rows and its writes after n steps. */
  datatype Solo = Solo(run: Loop, view: map<string, Meta>, edits: seq<Edit<Meta>>)

  ghost function Alone(l: Loop, view: map<string, Meta>, n: nat): Solo
    decreases n
  {
    if n == 0 then Solo(l, view, [])
    else
      var was := Alone(l, view, n - 1);
      var (next, w) := Advance(was.run, was.view);
      if w.None? then was.(run := next) else Solo(next, Apply1(was.view, w.value), was.edits + [w.value])
  }

  function Count(turns: seq<Who>, who: Who): nat
    decreases |turns|
  {
    if turns == [] then 0 else Count(turns[..|turns| - 1], who) + if turns[|turns| - 1] == who then 1 else 0
  }

  /** What the interleaving made of one loop is what the loop makes of itself. */
  ghost predicate AsAlone(sys: System, turns: seq<Who>, who: Who)
    requires who in sys.loops
  {
    var out := Interleave(sys, turns);
    var solo := Alone(sys.loops[who], View(sys.rows, who.server, who.user), Count(turns, who));
    && who in out.loops && out.loops[who] == solo.run
    && View(out.rows, who.server, who.user) == solo.view
    && Own(out.log, who.server, who.user) == Own(sys.log, who.server, who.user) + solo.edits
  }

  lemma {:induction false} OwnSnoc(ws: seq<Write>, w: Write, server: string, user: string)
    ensures Own(ws + [w], server, user) ==
      Own(ws, server, user) + if w.server == server && w.user == user then [w.edit] else []
  {
    assert (ws + [w])[..|ws|] == ws;
  }

  lemma {:induction false} TurnOfOther(sys: System, other: Who, who: Who)
    requires other != who
    ensures var out := Turn(sys, other);
      && Lookup(out.loops, who) == Lookup(sys.loops, who)
      && View(out.rows, who.server, who.user) == View(sys.rows, who.server, who.user)
      && Own(out.log, who.server, who.user) == Own(sys.log, who.server, who.user)
  {
    hide View, Own, Advance, Perform;
    if other in sys.loops {
      var (l, w) := Advance(sys.loops[other], View(sys.rows, other.server, other.user));
      if w.Some? {
        var write := Write(other.server, other.user, w.value);
        assert who == Who(who.server, who.user);
        PerformView(sys.rows, write, who.server, who.user);
        OwnSnoc(sys.log, write, who.server, who.user);
        assert Own(sys.log, who.server, who.user) + [] == Own(sys.log, who.server, who.user);
      }
    }
  }

  lemma {:induction false} TurnOfOwn(sys: System, who: Who)
    requires who in sys.loops
    ensures var out := Turn(sys, who);
      var (l, w) := Advance(sys.loops[who], View(sys.rows, who.server, who.user));
      && who in out.loops && out.loops[who] == l
      && (w.None? ==>
            && View(out.rows, who.server, who.user) == View(sys.rows, who.server, who.user)
            && Own(out.log, who.server, who.user) == Own(sys.log, who.server, who.user))
      && (w.Some? ==>
            && View(out.rows, who.server, who.user) == Apply1(View(sys.rows, who.server, who.user), w.value)
            && Own(out.log, who.server, who.user) == Own(sys.log, who.server, who.user) + [w.value])
  {
    hide View, Own, Advance, Perform;
    var (l, w) := Advance(sys.loops[who], View(sys.rows, who.server, who.user));
    if w.Some? {
      var write := Write(who.server, who.user, w.value);
      PerformView(sys.rows, write, who.server, who.user);
      OwnSnoc(sys.log, write, who.server, who.user);
    }
  }

  /** Whatever the other loops do in between, each loop lists the rows, computes the differences, sends the
      lists and makes the writes it would with the table to itself. */
  lemma {:induction false} AloneInCompany(sys: System, turns: seq<Who>, who: Who)
    requires who in sys.loops
    ensures AsAlone(sys, turns, who)
    decreases |turns|
  {
    hide View, Own, Advance, Turn;
    if turns == [] {
      assert Own(sys.log, who.server, who.user) + [] == Own(sys.log, who.server, who.user);
    } else {
      var before, last := turns[..|turns| - 1], turns[|turns| - 1];
      AloneInCompany(sys, before, who);
      var mid := Interleave(sys, before);
      if last == who {
        TurnOfOwn(mid, who);
        var solo := Alone(sys.loops[who], View(sys.rows, who.server, who.user), Count(before, who));
        var (next, w) := Advance(solo.run, solo.view);
        if w.Some? {
          var own := Own(sys.log, who.server, who.user);
          assert own + (solo.edits + [w.value]) == own + solo.edits + [w.value];
        }
      } else {
        TurnOfOther(mid, last, who);
      }
    }
  }

  /** Nothing is written for one that has no loop, and no loop comes or goes. */
  lemma {:induction false} NoStrangers(sys: System, turns: seq<Who>, who: Who)
    ensures Interleave(sys, turns).loops.Keys == sys.loops.Keys
    ensures who !in sys.loops ==>
      Own(Interleave(sys, turns).log, who.server, who.user) == Own(sys.log, who.server, who.user)
    decreases |turns|
  {
    hide View, Own, Advance, Perform;
    if turns != [] {
      var before, last := turns[..|turns| - 1], turns[|turns| - 1];
      NoStrangers(sys, before, who);
      if who != last { TurnOfOther(Interleave(sys, before), last, who); }
    }
  }

  /** The table is what the log says was written. */
  lemma {:induction false} TableIsLog(sys: System, turns: seq<Who>)
    requires sys.log == []
    ensures Interleave(sys, turns).rows == PerformAll(sys.rows, Interleave(sys, turns).log)
    decreases |turns|
  {
    hide View, Advance, Perform;
    if turns != [] {
      var before, last := turns[..|turns| - 1], turns[|turns| - 1];
      TableIsLog(sys, before);
      var mid := Interleave(sys, before);
      if last in mid.loops {
        var (l, w) := Advance(mid.loops[last], View(mid.rows, last.server, last.user));
        if w.Some? {
          var write := Write(last.server, last.user, w.value);
          assert (mid.log + [write])[..|mid.log|] == mid.log;
        }
      }
    }
  }

  /** A loop that has stopped does nothing more. */
  lemma {:induction false} StoppedRests(l: Loop, view: map<string, Meta>, n: nat, m: nat)
    requires n <= m && Alone(l, view, n).run.stage.Stopped?
    ensures Alone(l, view, m) == Alone(l, view, n)
    decreases m
  {
    hide Advance;
    if n < m {
      StoppedRests(l, view, n, m - 1);
      StoppedStays(Alone(l, view, n).run, Alone(l, view, n).view);
    }
  }

  lemma {:induction false} StoppedStays(l: Loop, view: map<string, Meta>)
    requires l.stage.Stopped?
    ensures Advance(l, view) == (l, None)
  {}

  lemma {:induction false} StoppedSame(l: Loop, view: map<string, Meta>, n: nat, m: nat)
    requires Alone(l, view, n).run.stage.Stopped? && Alone(l, view, m).run.stage.Stopped?
    ensures Alone(l, view, n) == Alone(l, view, m)
  {
    if n <= m { StoppedRests(l, view, n, m); } else { StoppedRests(l, view, m, n); }
  }

  ghost predicate AllStopped(sys: System) {
    forall who :: who in sys.loops ==> sys.loops[who].stage.Stopped?
  }

  lemma {:induction false} LoopsAgree(sys: System, a: seq<Who>, b: seq<Who>, who: Who)
    requires who in sys.loops && AllStopped(Interleave(sys, a)) && AllStopped(Interleave(sys, b))
    ensures who in Interleave(sys, a).loops && who in Interleave(sys, b).loops
    ensures Interleave(sys, a).loops[who] == Interleave(sys, b).loops[who]
    ensures Own(Interleave(sys, a).log, who.server, who.user) == Own(Interleave(sys, b).log, who.server, who.user)
  {
    hide View, Own, Alone, Interleave, Count;
    AloneInCompany(sys, a, who);
    AloneInCompany(sys, b, who);
    StoppedSame(sys.loops[who], View(sys.rows, who.server, who.user), Count(a, who), Count(b, who));
  }

  /** Replica independence: any two interleavings that run every loop to its end, one loop after another
      included, end with the same table, and every loop ends the same way having sent the same lists and
      made the same writes. */
  lemma {:induction false} InterleavingsAgree(sys: System, a: seq<Who>, b: seq<Who>)
    requires sys.log == [] && AllStopped(Interleave(sys, a)) && AllStopped(Interleave(sys, b))
    ensures Interleave(sys, a).rows == Interleave(sys, b).rows
    ensures Interleave(sys, a).loops == Interleave(sys, b).loops
    ensures forall who :: who in sys.loops ==>
      Own(Interleave(sys, a).log, who.server, who.user) == Own(Interleave(sys, b).log, who.server, who.user)
  {
    hide View, Own, Alone, Interleave, Count, Apply, PerformAll;
    var oa, ob := Interleave(sys, a), Interleave(sys, b);
    forall who: Who ensures Own(oa.log, who.server, who.user) == Own(ob.log, who.server, who.user) {
      NoStrangers(sys, a, who);
      NoStrangers(sys, b, who);
      if who in sys.loops { LoopsAgree(sys, a, b, who); }
    }
    forall who | who in sys.loops ensures who in oa.loops && who in ob.loops && oa.loops[who] == ob.loops[who] {
      LoopsAgree(sys, a, b, who);
    }
    NoStrangers(sys, a, Who("", ""));
    NoStrangers(sys, b, Who("", ""));
    TableIsLog(sys, a);
    TableIsLog(sys, b);
    forall server, user ensures View(oa.rows, server, user) == View(ob.rows, server, user) {
      var who := Who(server, user);
      assert Own(oa.log, who.server, who.user) == Own(ob.log, who.server, who.user);
      OwnWritesOnly(sys.rows, oa.log, server, user);
      OwnWritesOnly(sys.rows, ob.log, server, user);
    }
    SameViews(oa.rows, ob.rows);
  }

  // ---- what a loop sends, writes and ends with -----------------------------------------------

  /** The rows that are due: those of every list that was answered with success, in order. */
  function Due(w: World, sent: seq<seq<FileDiff>>): seq<Edit<Meta>>
    decreases |sent|
  {
    if sent == [] then []
    else Due(w, sent[..|sent| - 1]) + if w.answer(sent) then IndexEdits(sent[|sent| - 1]) else []
  }

  /** The differences attempt k has to send, from the rows it lists: those of its first n roots that are not
      empty, in order. None: one of them cannot be computed. */
  function PlansOf(w: World, k: nat, view: map<string, Meta>, n: nat): Option<seq<seq<FileDiff>>>
    decreases n
  {
    if n == 0 then Some([])
    else match PlansOf(w, k, view, n - 1)
      case None => None
      case Some(plans) =>
        match w.differ(k, n - 1, view)
        case None => None
        case Some(diffs) => Some(if diffs == [] then plans else plans + [diffs])
  }

  lemma {:induction false} PlansStayNone(w: World, k: nat, view: map<string, Meta>, n: nat, m: nat)
    requires n <= m && PlansOf(w, k, view, n).None?
    ensures PlansOf(w, k, view, m).None?
    decreases m
  {
    if n < m { PlansStayNone(w, k, view, n, m - 1); }
  }

  /** What the current attempt has to send, given the rows before the loop began. */
  function Planned(l: Loop, view: map<string, Meta>, n: nat): Option<seq<seq<FileDiff>>>
    requires l.before <= |l.sent|
  {
    PlansOf(l.world, l.attempt, Apply(view, Due(l.world, l.sent[..l.before])), n)
  }

  /** Every list of the current attempt was answered with success. */
  ghost predicate Answered(w: World, before: nat, sent: seq<seq<FileDiff>>) {
    forall j :: before < j <= |sent| ==> w.answer(sent[..j])
  }

  /** The last list is being recorded: everything due before it was written, and its first n rows. */
  ghost predicate Partly(w: World, sent: seq<seq<FileDiff>>, edits: seq<Edit<Meta>>, n: int) {
    && sent != [] && w.answer(sent) && 0 <= n <= |sent[|sent| - 1]|
    && edits == Due(w, sent[..|sent| - 1]) + IndexEdits(sent[|sent| - 1])[..n]
  }

  /** The attempt has computed all its differences. */
  ghost predicate Listed(l: Loop, view: map<string, Meta>) {
    l.before <= |l.sent| && l.world.reached(l.attempt) &&
      Planned(l, view, l.world.roots(l.attempt)) == Some(l.plans)
  }

  /** The last attempt sent everything it had to, every list was answered with success, and every row due has
      been written. */
  ghost predicate Completed(l: Loop, view: map<string, Meta>, edits: seq<Edit<Meta>>) {
    && l.before <= |l.sent| && l.world.reached(l.attempt)
    && Planned(l, view, l.world.roots(l.attempt)) == Some(l.sent[l.before..])
    && Answered(l.world, l.before, l.sent) && edits == Due(l.world, l.sent)
  }

  /** Why a loop gave up: a failure that may pass and is not followed by another attempt; a root that cannot
      be planned; a row that cannot be written. */
  ghost predicate GaveUp(l: Loop, view: map<string, Meta>, edits: seq<Edit<Meta>>) {
    l.before <= |l.sent| &&
    if !l.world.reached(l.attempt) then
      !l.world.again(l.attempt) && l.before == |l.sent| && edits == Due(l.world, l.sent)
    else if Planned(l, view, l.world.roots(l.attempt)).None? then
      l.before == |l.sent| && edits == Due(l.world, l.sent)
    else
      l.before < |l.sent| &&
      if l.world.answer(l.sent) then
        exists n :: n < |l.sent[|l.sent| - 1]| && Partly(l.world, l.sent, edits, n) && !l.world.written(|edits|)
      else
        !l.world.again(l.attempt) && edits == Due(l.world, l.sent)
  }

  /** Where a loop that began with the rows `view` stands. */
  ghost predicate OnCourse(view: map<string, Meta>, s: Solo) {
    var l, w := s.run, s.run.world;
    && l.before <= |l.sent| && s.view == Apply(view, s.edits) && l.writes == |s.edits|
    && (forall k :: 0 <= k < l.attempt ==> w.again(k))
    && match l.stage
       case Connecting => l.before == |l.sent| && l.plans == [] && s.edits == Due(w, l.sent)
       case Listing(root) =>
         && l.before == |l.sent| && s.edits == Due(w, l.sent) && w.reached(l.attempt)
         && root <= w.roots(l.attempt) && Planned(l, view, root) == Some(l.plans)
       case Pushing(i) =>
         && Listed(l, view) && Answered(l.world, l.before, l.sent) && s.edits == Due(w, l.sent)
         && i <= |l.plans| && l.sent[l.before..] == l.plans[..i]
       case Recording(i, n) =>
         && Listed(l, view) && Answered(l.world, l.before, l.sent) && Partly(l.world, l.sent, s.edits, n)
         && i < |l.plans| && l.sent[l.before..] == l.plans[..i + 1]
       case Stopped(ok) => if ok then Completed(l, view, s.edits) else GaveUp(l, view, s.edits)
  }

  lemma {:induction false} BeginsOnCourse(w: World, view: map<string, Meta>)
    ensures OnCourse(view, Alone(Begin(w), view, 0))
  {}

  ghost function After(s: Solo): Solo {
    var (next, w) := Advance(s.run, s.view);
    if w.None? then s.(run := next) else Solo(next, Apply1(s.view, w.value), s.edits + [w.value])
  }

  lemma {:induction false} DueSnoc(w: World, sent: seq<seq<FileDiff>>, diffs: seq<FileDiff>)
    ensures Due(w, sent + [diffs]) == Due(w, sent) + if w.answer(sent + [diffs]) then IndexEdits(diffs) else []
  {
    assert (sent + [diffs])[..|sent|] == sent;
  }

  /** Nothing has been sent yet in this attempt. */
  lemma {:induction false} ListOnCourse(view: map<string, Meta>, s: Solo)
    requires OnCourse(view, s) && (s.run.stage.Connecting? || s.run.stage.Listing?)
    ensures OnCourse(view, After(s))
  {
    hide Due, Apply;
    var l := s.run;
    assert l.sent[..l.before] == l.sent && l.sent[l.before..] == [];
    if l.stage.Listing? && l.stage.root < l.world.roots(l.attempt) {
      var root := l.stage.root;
      if l.world.differ(l.attempt, root, s.view).None? {
        PlansStayNone(l.world, l.attempt, s.view, root + 1, l.world.roots(l.attempt));
      }
    } else if l.stage.Listing? {
      assert l.plans[..0] == [];
    }
  }

  lemma {:induction false} PushOnCourse(view: map<string, Meta>, s: Solo)
    requires OnCourse(view, s) && s.run.stage.Pushing?
    ensures OnCourse(view, After(s))
  {
    hide Due, Apply, PlansOf;
    var l, i := s.run, s.run.stage.i;
    if i >= |l.plans| {
      assert l.plans[..i] == l.plans;
    } else {
      var sent := l.sent + [l.plans[i]];
      DueSnoc(l.world, l.sent, l.plans[i]);
      assert sent[..l.before] == l.sent[..l.before];
      assert sent[l.before..] == l.plans[..i + 1];
      assert sent[..|sent|] == sent && sent[..|l.sent|] == l.sent;
      assert s.edits + [] == s.edits;
      assert IndexEdits(l.plans[i])[..0] == [];
      forall j | l.before < j <= |l.sent| ensures l.world.answer(sent[..j]) { assert sent[..j] == l.sent[..j]; }
    }
  }

  lemma {:induction false} RecordOnCourse(view: map<string, Meta>, s: Solo)
    requires OnCourse(view, s) && s.run.stage.Recording?
    ensures OnCourse(view, After(s))
  {
    hide Due, PlansOf, Apply, Partly, Answered;
    var l, i, n := s.run, s.run.stage.i, s.run.stage.n;
    PartlyMeans(l.world, l.sent, s.edits, n);
    var last := l.sent[|l.sent| - 1];
    assert last == l.sent[l.before..][i] == l.plans[i];
    hide Listed;
    if n < |last| {
      if l.world.written(l.writes) {
        OneMoreRow(l.world, l.sent, s.edits, n, view);
      } else {
        ListedMeans(l, view);
      }
    }
  }

  lemma {:induction false} ListedMeans(l: Loop, view: map<string, Meta>)
    requires Listed(l, view)
    ensures l.before <= |l.sent| && l.world.reached(l.attempt)
    ensures Planned(l, view, l.world.roots(l.attempt)) == Some(l.plans)
  {}

  lemma {:induction false} PartlyMeans(w: World, sent: seq<seq<FileDiff>>, edits: seq<Edit<Meta>>, n: int)
    requires Partly(w, sent, edits, n)
    ensures sent != [] && w.answer(sent) && 0 <= n <= |sent[|sent| - 1]|
    ensures n == |sent[|sent| - 1]| ==> edits == Due(w, sent)
  {
    var last := sent[|sent| - 1];
    if n == |last| { assert IndexEdits(last)[..n] == IndexEdits(last); }
  }

  lemma {:induction false} OneMoreRow(w: World, sent: seq<seq<FileDiff>>, edits: seq<Edit<Meta>>, n: nat,
                                      view: map<string, Meta>)
    requires Partly(w, sent, edits, n) && n < |sent[|sent| - 1]|
    ensures var more := edits + [IndexEdit(sent[|sent| - 1][n])];
      Partly(w, sent, more, n + 1) && Apply(view, more) == Apply1(Apply(view, edits), IndexEdit(sent[|sent| - 1][n]))
  {
    hide Due;
    var rows, e := IndexEdits(sent[|sent| - 1]), IndexEdit(sent[|sent| - 1][n]);
    assert rows[..n + 1] == rows[..n] + [e];
    assert (edits + [e])[..|edits|] == edits;
  }

  lemma {:induction false} StaysOnCourse(w: World, view: map<string, Meta>, n: nat)
    ensures OnCourse(view, Alone(Begin(w), view, n)) && Alone(Begin(w), view, n).run.world == w
    decreases n
  {
    hide OnCourse, Advance;
    if n == 0 {
      BeginsOnCourse(w, view);
    } else {
      StaysOnCourse(w, view, n - 1);
      var was := Alone(Begin(w), view, n - 1);
      StepOnCourse(view, was);
      assert Alone(Begin(w), view, n) == After(was);
    }
  }

  lemma {:induction false} StepOnCourse(view: map<string, Meta>, s: Solo)
    requires OnCourse(view, s)
    ensures OnCourse(view, After(s)) && After(s).run.world == s.run.world
  {
    hide OnCourse, Advance;
    SameWorld(s.run, s.view);
    if s.run.stage.Connecting? || s.run.stage.Listing? {
      ListOnCourse(view, s);
    } else if s.run.stage.Pushing? {
      PushOnCourse(view, s);
    } else if s.run.stage.Recording? {
      RecordOnCourse(view, s);
    } else {
      StoppedStays(s.run, s.view);
    }
  }

  lemma {:induction false} SameWorld(l: Loop, view: map<string, Meta>)
    ensures Advance(l, view).0.world == l.world
  {}

  /** What a loop has written at any time: the rows of every list the server answered with success, in order
      and in full, except that the last of these lists may be recorded in part; never a row of a list that
      was not. */
  lemma {:induction false} LoopWrites(sys: System, turns: seq<Who>, who: Who, w: World)
    requires who in sys.loops && sys.loops[who] == Begin(w) && sys.log == []
    ensures var out := Interleave(sys, turns);
      && who in out.loops && out.loops[who].world == w
      && var sent, own := out.loops[who].sent, Own(out.log, who.server, who.user);
         own == Due(w, sent) || exists n :: Partly(w, sent, own, n)
  {
    hide Own, Interleave, Alone, Due, PlansOf, Apply, View, Partly;
    AloneInCompany(sys, turns, who);
    var view, own := View(sys.rows, who.server, who.user), Own(Interleave(sys, turns).log, who.server, who.user);
    StaysOnCourse(w, view, Count(turns, who));
    OwnEdits(sys, turns, who);
    WritesAreDue(view, Alone(Begin(w), view, Count(turns, who)));
  }

  lemma {:induction false} OwnEdits(sys: System, turns: seq<Who>, who: Who)
    requires who in sys.loops && sys.log == [] && AsAlone(sys, turns, who)
    ensures Own(Interleave(sys, turns).log, who.server, who.user) ==
      Alone(sys.loops[who], View(sys.rows, who.server, who.user), Count(turns, who)).edits
  {
    hide Interleave, Alone, View;
  }

  lemma {:induction false} WritesAreDue(view: map<string, Meta>, s: Solo)
    requires OnCourse(view, s)
    ensures s.edits == Due(s.run.world, s.run.sent) || exists n :: Partly(s.run.world, s.run.sent, s.edits, n)
  {
    hide Due, PlansOf, Apply, Partly;
  }

  /** How a loop ends: with success exactly if its last attempt reached the server, could plan every root, sent
      every list it had to and got success for each, and every row due has been written. Otherwise it gave up
      for one of the named reasons. Before each retry there was a failure that may pass. */
  lemma {:induction false} LoopOutcome(sys: System, turns: seq<Who>, who: Who, w: World)
    requires who in sys.loops && sys.loops[who] == Begin(w) && sys.log == []
    requires who in Interleave(sys, turns).loops && Interleave(sys, turns).loops[who].stage.Stopped?
    ensures var l := Interleave(sys, turns).loops[who];
      var view, own := View(sys.rows, who.server, who.user), Own(Interleave(sys, turns).log, who.server, who.user);
      && l.world == w && (forall k :: 0 <= k < l.attempt ==> w.again(k))
      && (l.stage.ok <==> Completed(l, view, own))
      && (!l.stage.ok <==> GaveUp(l, view, own))
  {
    hide Own, Interleave, Alone, View, PlansOf, Apply, Due, Completed, GaveUp;
    AloneInCompany(sys, turns, who);
    var view := View(sys.rows, who.server, who.user);
    StaysOnCourse(w, view, Count(turns, who));
    OwnEdits(sys, turns, who);
    var l := Interleave(sys, turns).loops[who];
    NotBoth(l, view, Own(Interleave(sys, turns).log, who.server, who.user));
  }

  lemma {:induction false} NotBoth(l: Loop, view: map<string, Meta>, edits: seq<Edit<Meta>>)
    ensures !(Completed(l, view, edits) && GaveUp(l, view, edits))
  {
    hide PlansOf, Apply;
    assert l.before <= |l.sent| ==> l.sent[..|l.sent|] == l.sent;
    forall n | Partly(l.world, l.sent, edits, n) && n < |l.sent[|l.sent| - 1]| ensures edits != Due(l.world, l.sent) {
      assert |edits| == |Due(l.world, l.sent[..|l.sent| - 1])| + n < |Due(l.world, l.sent)|;
    }
  }
}
