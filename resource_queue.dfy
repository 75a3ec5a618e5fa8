/** The ResourceQueue scheduler of clientlib/resourcequeue.c.

    A ResourceQueue keeps, for every resource name, a FIFO queue of the commands
    that act on that resource. `Append` and `Remove` maintain the table; `RunQueue`
    is the periodic pass that starts at most one command per resource, and only
    when nothing on that resource is running. */
module ResourceQueues {
  import opened Wrappers

  /** A queued resource command: only the part of its contract that the
      scheduler looks at. */
  class ResourceCmd {
    const resourceName: string
    var isRunning: bool
    /** Monotonic time (microseconds); 0 means "no start time set". */
    var startTime: int
    /** The object's reference count (REF/UNREF). */
    var refCount: nat

    constructor (name: string, start: int)
      ensures resourceName == name && startTime == start
      ensures !isRunning && refCount == 1
    {
      resourceName := name;
      startTime := start;
      isRunning := false;
      refCount := 1;
    }

    /** The command's `execute` member: starts the action without blocking.
        All the scheduler relies on is that the command is running afterwards
        and that nothing else about it (or about any other object) changed. */
    method Execute()
      modifies this`isRunning
      ensures isRunning
    {
      isRunning := true;
    }
  }

  /** The literal selection test of the scheduler pass: a command is picked when
      its start time is unset or lies AFTER `now`. */
  predicate IsDue(startTime: int, now: int)
  {
    startTime == 0 || startTime > now
  }

  /** Some command of the queue is running. */
  predicate AnyRunning(q: seq<ResourceCmd>)
    reads q
  {
    exists i :: 0 <= i < |q| && q[i].isRunning
  }

  /** The position of the first command of `q` that the pass would pick, or |q|. */
  function FirstDue(q: seq<ResourceCmd>, now: int): (i: nat)
    reads q
    ensures i <= |q|
    ensures i < |q| ==> IsDue(q[i].startTime, now)
    ensures forall j :: 0 <= j < i ==> !IsDue(q[j].startTime, now)
  {
    if q == [] then 0
    else if IsDue(q[0].startTime, now) then 0
    else 1 + FirstDue(q[1..], now)
  }

  /** The command that one pass starts on a resource whose queue is `q`, if any. */
  function Chosen(q: seq<ResourceCmd>, now: int): (c: Option<ResourceCmd>)
    reads q
    ensures c.Some? ==> c.value in q && !AnyRunning(q) && IsDue(c.value.startTime, now)
    ensures c.Some? ==> exists i :: 0 <= i < |q| && q[i] == c.value &&
                          forall j :: 0 <= j < i ==> !IsDue(q[j].startTime, now)
    ensures c.None? <==> AnyRunning(q) || forall i :: 0 <= i < |q| ==> !IsDue(q[i].startTime, now)
  {
    if AnyRunning(q) then None
    else if FirstDue(q, now) < |q| then Some(q[FirstDue(q, now)])
    else None
  }

  /** At most one distinct command of `q` is running. */
  predicate AtMostOneRunning(q: seq<ResourceCmd>)
    reads q`isRunning
  {
    forall i, j :: 0 <= i < |q| && 0 <= j < |q| && q[i].isRunning && q[j].isRunning ==> q[i] == q[j]
  }

  /** First-in, first-out: of two commands that are both eligible, the one
      queued later is never started while an earlier one is waiting. */
  lemma EarlierDueCommandWins(q: seq<ResourceCmd>, now: int, i: nat, j: nat)
    requires i < j < |q| && q[j] !in q[..j]
    requires IsDue(q[i].startTime, now)
    ensures Chosen(q, now) != Some(q[j])
  {
    var f := FirstDue(q, now);
    assert f <= i;
    assert q[f] in q[..j];
  }

  /** The selection test as written never picks a command whose start time
      is set and has already been reached, although the design intends a
      repeating command to run once its delay has elapsed. */
  lemma PastDueNeverStarted(q: seq<ResourceCmd>, now: int, c: ResourceCmd)
    requires c in q && c.startTime != 0 && c.startTime <= now
    ensures Chosen(q, now) != Some(c)
  {
  }

  /** ... while a command delayed into the future is started at once, on a
      resource where nothing runs and nothing is queued ahead of it. */
  lemma FutureDatedStartedAtOnce(q: seq<ResourceCmd>, now: int)
    requires |q| > 0 && !AnyRunning(q)
    requires q[0].startTime > now
    ensures Chosen(q, now) == Some(q[0])
  {
  }

  /** The queue for `name`, the empty queue when the table has none. */
  function QueueOf(resources: map<string, seq<ResourceCmd>>, name: string): seq<ResourceCmd>
  {
    if name in resources then resources[name] else []
  }

  /** How many times `c` occurs in `q`. */
  function Occurrences(q: seq<ResourceCmd>, c: ResourceCmd): nat
  {
    if q == [] then 0
    else Occurrences(q[..|q| - 1], c) + (if q[|q| - 1] == c then 1 else 0)
  }

  lemma {:induction false} OccurrencesCons(x: ResourceCmd, s: seq<ResourceCmd>, c: ResourceCmd)
    ensures Occurrences([x] + s, c) == (if x == c then 1 else 0) + Occurrences(s, c)
  {
    if s == [] {
      assert ([x] + s)[..0] == [];
    } else {
      var p := s[..|s| - 1];
      assert ([x] + s)[..|s|] == [x] + p;
      OccurrencesCons(x, p, c);
    }
  }

  /** A command is in a queue exactly when it is counted there at least once. */
  lemma {:induction false} OccursIffCounted(q: seq<ResourceCmd>, c: ResourceCmd)
    ensures c in q <==> Occurrences(q, c) > 0
  {
    if q != [] {
      var p := q[..|q| - 1];
      OccursIffCounted(p, c);
      assert q == p + [q[|q| - 1]];
    }
  }

  /** A prefix holds no more occurrences than the whole queue. */
  lemma {:induction false} OccurrencesPrefix(q: seq<ResourceCmd>, i: nat, c: ResourceCmd)
    requires i <= |q|
    ensures Occurrences(q[..i], c) <= Occurrences(q, c)
  {
    if i == |q| {
      assert q[..i] == q;
    } else {
      var p := q[..|q| - 1];
      assert q[..i] == p[..i];
      OccurrencesPrefix(p, i, c);
    }
  }

  /** g_queue_remove: drop the first occurrence of `c`, keep the rest in order. */
  function RemoveFirst(q: seq<ResourceCmd>, c: ResourceCmd): (r: seq<ResourceCmd>)
    ensures c !in q ==> r == q
    ensures c in q ==> |r| == |q| - 1
  {
    if q == [] then []
    else if q[0] == c then
      assert q == [q[0]] + q[1..];
      q[1..]
    else
      assert q == [q[0]] + q[1..];
      [q[0]] + RemoveFirst(q[1..], c)
  }

  /** Removing `c` takes away exactly one occurrence of it, when there is one,
      and leaves the count of every other command as it was. */
  lemma {:induction false} RemoveFirstCounts(q: seq<ResourceCmd>, c: ResourceCmd, d: ResourceCmd)
    ensures Occurrences(RemoveFirst(q, c), d) == Occurrences(q, d) - (if d == c && c in q then 1 else 0)
  {
    if q != [] {
      var t := q[1..];
      assert q == [q[0]] + t;
      OccurrencesCons(q[0], t, d);
      if q[0] != c {
        RemoveFirstCounts(t, c, d);
        OccurrencesCons(q[0], RemoveFirst(t, c), d);
      }
    }
  }

  /** The first position of `c` in `q`. */
  function IndexOf(q: seq<ResourceCmd>, c: ResourceCmd): (i: nat)
    requires c in q
    ensures i < |q| && q[i] == c && c !in q[..i]
  {
    if q[0] == c then 0 else 1 + IndexOf(q[1..], c)
  }

  /** Removing the first occurrence cuts the queue at the first index of `c`:
      the commands before and after it keep their relative order. */
  lemma {:induction false} RemoveFirstSplits(q: seq<ResourceCmd>, c: ResourceCmd)
    requires c in q
    ensures RemoveFirst(q, c) == q[..IndexOf(q, c)] + q[IndexOf(q, c) + 1..]
  {
    if q[0] == c {
      assert IndexOf(q, c) == 0;
      assert RemoveFirst(q, c) == q[1..];
      assert q[..0] == [];
    } else {
      var t := q[1..];
      RemoveFirstSplits(t, c);
      var i := IndexOf(t, c);
      assert IndexOf(q, c) == i + 1;
      assert RemoveFirst(q, c) == [q[0]] + RemoveFirst(t, c);
      assert RemoveFirst(t, c) == t[..i] + t[i + 1..];
      assert q[..i + 1] == [q[0]] + t[..i];
      assert q[i + 2..] == t[i + 1..];
    }
  }

  /** The hash-table data destructor: UNREF every element of a destroyed queue,
      once per occurrence. */
  method ReleaseQueue(q: seq<ResourceCmd>)
    requires forall c :: c in q ==> Occurrences(q, c) <= c.refCount
    modifies q`refCount
    ensures forall c :: c in q ==> c.refCount == old(c.refCount) - Occurrences(q, c)
  {
    var i := 0;
    while i < |q|
      invariant 0 <= i <= |q|
      invariant forall c :: c in q ==> c.refCount + Occurrences(q[..i], c) == old(c.refCount)
    {
      assert q[..i + 1][..i] == q[..i];
      OccurrencesPrefix(q, i + 1, q[i]);
      q[i].refCount := q[i].refCount - 1;
      i := i + 1;
    }
    assert q[..i] == q;
  }

  /** Every command held in some queue of `table`. */
  ghost function Commands(table: map<string, seq<ResourceCmd>>): (s: set<ResourceCmd>)
    ensures forall r, c :: r in table && c in table[r] ==> c in s
  {
    set r, c | r in table && c in table[r] :: c
  }

  /** The data destructor applied to every queue of a table whose queues
      each hold only commands of their own resource. */
  method ReleaseTable(table: map<string, seq<ResourceCmd>>)
    requires forall r, c :: r in table && c in table[r] ==>
               c.resourceName == r && Occurrences(table[r], c) <= c.refCount
    modifies Commands(table)`refCount
    ensures forall r, c :: r in table && c in table[r] ==>
              c.refCount == old(c.refCount) - Occurrences(table[r], c)
  {
    var todo := table.Keys;
    while todo != {}
      invariant todo <= table.Keys
      invariant forall r, c :: r in todo && c in table[r] ==> c.refCount == old(c.refCount)
      invariant forall r, c :: r in table && r !in todo && c in table[r] ==>
                  c.refCount == old(c.refCount) - Occurrences(table[r], c)
      decreases todo
    {
      var r :| r in todo;
      var q := table[r];
      assert forall c :: c in q ==> c.resourceName == r;
      ReleaseQueue(q);
      todo := todo - {r};
    }
  }

  /** The table invariant: no empty queue is kept, a command sits only in the
      queue named by its resource, and the queue holds one counted reference
      per occurrence. */
  ghost predicate TableInvariant(table: map<string, seq<ResourceCmd>>)
    reads Commands(table)`refCount
  {
    && (forall r :: r in table ==> table[r] != [])
    && (forall r, c :: r in table && c in table[r] ==>
          c.resourceName == r && Occurrences(table[r], c) <= c.refCount)
  }

  /** The table once the first occurrence of `cmd` has left its resource's
      queue, the queue being dropped when it becomes empty. */
  function Removed(table: map<string, seq<ResourceCmd>>, cmd: ResourceCmd): map<string, seq<ResourceCmd>>
    requires cmd.resourceName in table
  {
    if RemoveFirst(table[cmd.resourceName], cmd) == [] then table - {cmd.resourceName}
    else table[cmd.resourceName := RemoveFirst(table[cmd.resourceName], cmd)]
  }

  /** After the first occurrence of `cmd` leaves its queue, every queue is
      still non-empty and holds only its own resource's commands, and `cmd`
      keeps one spare reference for the UNREF that follows. */
  lemma RemoveKeepsInvariant(table: map<string, seq<ResourceCmd>>, cmd: ResourceCmd,
                              t: map<string, seq<ResourceCmd>>)
    requires TableInvariant(table)
    requires cmd.resourceName in table && cmd in table[cmd.resourceName]
    requires t == Removed(table, cmd)
    ensures forall r :: r in t ==> t[r] != []
    ensures forall r, c :: r in t && c in t[r] ==>
              c.resourceName == r && Occurrences(t[r], c) + (if c == cmd then 1 else 0) <= c.refCount
    ensures 1 <= cmd.refCount
  {
    var name := cmd.resourceName;
    var q := table[name];
    var rest := RemoveFirst(q, cmd);
    OccursIffCounted(q, cmd);
    forall r: string, c: ResourceCmd | r in t && c in t[r]
      ensures c.resourceName == r && Occurrences(t[r], c) + (if c == cmd then 1 else 0) <= c.refCount
    {
      if r == name {
        RemoveFirstCounts(q, cmd, c);
        OccursIffCounted(rest, c);
        OccursIffCounted(q, c);
      } else {
        assert c in table[r];
      }
    }
  }

  /** Appending `cmd` to its resource's queue keeps every queue non-empty and
      of its own resource; the new occurrence needs the one reference that
      the append takes. */
  lemma AppendKeepsInvariant(table: map<string, seq<ResourceCmd>>, cmd: ResourceCmd)
    requires TableInvariant(table)
    ensures var t := table[cmd.resourceName := QueueOf(table, cmd.resourceName) + [cmd]];
            && (forall r :: r in t ==> t[r] != [])
            && (forall r, c :: r in t && c in t[r] ==>
                  c.resourceName == r && Occurrences(t[r], c) <= c.refCount + (if c == cmd then 1 else 0))
  {
    var name := cmd.resourceName;
    var q := QueueOf(table, name);
    var t := table[name := q + [cmd]];
    forall r: string, c: ResourceCmd | r in t && c in t[r]
      ensures c.resourceName == r && Occurrences(t[r], c) <= c.refCount + (if c == cmd then 1 else 0)
    {
      if r == name {
        assert c in q || c == cmd;
        assert (q + [cmd])[..|q|] == q;
        OccursIffCounted(q, c);
      } else {
        assert c in table[r];
      }
    }
  }

  /** Every queue of the table has at most one running command. */
  ghost predicate TableExclusive(table: map<string, seq<ResourceCmd>>)
    reads Commands(table)`isRunning
  {
    forall r :: r in table ==> AtMostOneRunning(table[r])
  }

  lemma AtMostOneRunningByMembers(q: seq<ResourceCmd>)
    ensures AtMostOneRunning(q) <==>
            forall a, b :: a in q && b in q && a.isRunning && b.isRunning ==> a == b
  {
    if AtMostOneRunning(q) {
      forall a, b | a in q && b in q && a.isRunning && b.isRunning
        ensures a == b
      {
        var i :| 0 <= i < |q| && q[i] == a;
        var j :| 0 <= j < |q| && q[j] == b;
      }
    }
  }

  /** Removing a command never breaks mutual exclusion: its queue only loses
      a member. */
  lemma RemoveKeepsExclusion(table: map<string, seq<ResourceCmd>>, cmd: ResourceCmd)
    requires cmd.resourceName in table && TableExclusive(table)
    ensures TableExclusive(Removed(table, cmd))
  {
    var name := cmd.resourceName;
    var q := table[name];
    var rest := RemoveFirst(q, cmd);
    forall c | c in rest
      ensures c in q
    {
      RemoveFirstCounts(q, cmd, c);
      OccursIffCounted(rest, c);
      OccursIffCounted(q, c);
    }
    AtMostOneRunningByMembers(q);
    AtMostOneRunningByMembers(rest);
    var t := Removed(table, cmd);
    forall r | r in t
      ensures AtMostOneRunning(t[r])
    {
      if r != name {
        assert AtMostOneRunning(table[r]);
      }
    }
  }

  /** The command is not running, or no other command of its queue is. */
  ghost predicate AppendAllowed(table: map<string, seq<ResourceCmd>>, cmd: ResourceCmd)
    reads cmd, QueueOf(table, cmd.resourceName)
  {
    cmd.isRunning ==> forall c :: c in QueueOf(table, cmd.resourceName) && c.isRunning ==> c == cmd
  }

  /** Appending keeps mutual exclusion exactly when the command is not
      running, or no other command of its queue is: the append itself never
      looks at whether the command runs. */
  lemma AppendExclusion(table: map<string, seq<ResourceCmd>>, cmd: ResourceCmd)
    requires TableExclusive(table)
    ensures TableExclusive(table[cmd.resourceName := QueueOf(table, cmd.resourceName) + [cmd]]) <==>
            AppendAllowed(table, cmd)
  {
    var name := cmd.resourceName;
    var q := QueueOf(table, name);
    var q' := q + [cmd];
    var t := table[name := q'];
    AtMostOneRunningByMembers(q);
    AtMostOneRunningByMembers(q');
    assert forall c :: c in q' <==> c in q || c == cmd;
    if cmd.isRunning ==> forall c :: c in q && c.isRunning ==> c == cmd {
      if name in table {
        assert AtMostOneRunning(table[name]);
      }
      forall r | r in t
        ensures AtMostOneRunning(t[r])
      {
        if r != name {
          assert AtMostOneRunning(table[r]);
        }
      }
    } else {
      var c :| c in q && c.isRunning && c != cmd;
      assert !AtMostOneRunning(t[name]);
    }
  }

  class ResourceQueue {
    /** resource name -> FIFO queue of the commands on that resource */
    var resources: map<string, seq<ResourceCmd>>

    /** Every command held in some queue. */
    ghost function Queued(): set<ResourceCmd>
      reads this
    {
      Commands(resources)
    }

    ghost predicate Valid()
      reads this, Queued()`refCount
    {
      TableInvariant(resources)
    }

    /** Every resource has at most one running command. */
    ghost predicate MutuallyExclusive()
      reads this, Queued()`isRunning
    {
      TableExclusive(resources)
    }

    constructor ()
      ensures Valid() && resources == map[]
    {
      resources := map[];
    }

    /** Put `cmd` at the tail of its resource's queue, creating the queue if absent. */
    method Append(cmd: ResourceCmd)
      requires Valid()
      modifies this, cmd`refCount
      ensures Valid()
      ensures resources == old(resources)[cmd.resourceName := QueueOf(old(resources), cmd.resourceName) + [cmd]]
      ensures cmd.refCount == old(cmd.refCount) + 1
      ensures old(MutuallyExclusive()) ==>
                (MutuallyExclusive() <==> old(AppendAllowed(resources, cmd)))
    {
      var name := cmd.resourceName;
      var t := resources[name := QueueOf(resources, name) + [cmd]];
      assert MutuallyExclusive() ==> (TableExclusive(t) <==> AppendAllowed(resources, cmd)) by {
        if MutuallyExclusive() {
          AppendExclusion(resources, cmd);
        }
      }
      AppendKeepsInvariant(resources, cmd);
      cmd.refCount := cmd.refCount + 1;
      resources := t;
      forall r: string, c: ResourceCmd | r in resources && c in resources[r]
        ensures c.resourceName == r && Occurrences(resources[r], c) <= c.refCount
      {
      }
    }

    /** Remove the first occurrence of `cmd` from its resource's queue, dropping
        the queue when it becomes empty. The two failure cases of the source
        report an error and change nothing: `ok` is false then. */
    method Remove(cmd: ResourceCmd) returns (ok: bool)
      requires Valid()
      modifies this, cmd`refCount
      ensures Valid()
      ensures ok <==> cmd in QueueOf(old(resources), cmd.resourceName)
      ensures ok ==> cmd.refCount == old(cmd.refCount) - 1
      ensures ok ==> resources == Removed(old(resources), cmd)
      ensures !ok ==> resources == old(resources) && cmd.refCount == old(cmd.refCount)
      ensures old(MutuallyExclusive()) ==> MutuallyExclusive()
    {
      var name := cmd.resourceName;
      if name !in resources {
        return false;
      }
      var q := resources[name];
      if cmd !in q {
        return false;
      }
      var rest := RemoveFirst(q, cmd);
      var t := if rest == [] then resources - {name} else resources[name := rest];
      RemoveKeepsInvariant(resources, cmd, t);
      if MutuallyExclusive() {
        RemoveKeepsExclusion(resources, cmd);
      }
      resources := t;
      cmd.refCount := cmd.refCount - 1;
      ok := true;
    }

    /** The scheduler pass for one resource queue: skip it when any command in
        it is running, otherwise execute the first command the selection test
        picks. */
    static method RunResource(q: seq<ResourceCmd>, now: int)
      modifies q`isRunning
      ensures forall c :: c in q ==> c.isRunning == (old(c.isRunning) || Some(c) == old(Chosen(q, now)))
    {
      var anyRunning := false;
      var i := 0;
      while i < |q|
        invariant 0 <= i <= |q|
        invariant forall j :: 0 <= j < i ==> !q[j].isRunning
      {
        if q[i].isRunning {
          anyRunning := true;
          break;
        }
        i := i + 1;
      }
      if anyRunning {
        return;
      }
      i := 0;
      while i < |q|
        invariant 0 <= i <= |q|
        invariant forall j :: 0 <= j < i ==> !IsDue(q[j].startTime, now)
      {
        if IsDue(q[i].startTime, now) {
          assert FirstDue(q, now) == i;
          q[i].Execute();
          return;
        }
        i := i + 1;
      }
      assert FirstDue(q, now) == |q|;
    }

    /** `_resource_queue_runqueue` with the clock reading passed in as `now`.
        Each command of the table ends up running exactly when it was running
        already or it is the one command chosen on its own resource; nothing
        else changes, and mutual exclusion per resource is preserved. */
    method RunQueue(now: int)
      requires Valid()
      modifies Queued()`isRunning
      ensures Valid()
      ensures forall c :: c in Queued() ==>
                c.isRunning == (old(c.isRunning) || Some(c) == old(Chosen(resources[c.resourceName], now)))
      ensures old(MutuallyExclusive()) ==> MutuallyExclusive()
    {
      var todo := resources.Keys;
      while todo != {}
        invariant todo <= resources.Keys
        invariant forall c :: c in Queued() && c.resourceName in todo ==> c.isRunning == old(c.isRunning)
        invariant forall c :: c in Queued() && c.resourceName !in todo ==>
                    c.isRunning == (old(c.isRunning) || Some(c) == old(Chosen(resources[c.resourceName], now)))
        decreases todo
      {
        var r :| r in todo;
        var q := resources[r];
        assert forall c :: c in q ==> c in Queued() && c.resourceName == r;
        RunResource(q, now);
        todo := todo - {r};
      }
      if old(MutuallyExclusive()) {
        RunPreservesExclusion(now);
      }
    }

    /** Destroying the table (at finalization) passes every queue to the data
        destructor: each command loses one reference per queued occurrence. */
    method Destroy()
      requires Valid()
      modifies this, Queued()`refCount
      ensures Valid() && resources == map[]
      ensures forall r, c :: r in old(resources) && c in old(resources)[r] ==>
                c.refCount == old(c.refCount) - Occurrences(old(resources)[r], c)
    {
      ReleaseTable(resources);
      resources := map[];
    }

    /** Mutual exclusion survives a pass whose effect on every command is the
        one RunQueue promises. */
    twostate lemma RunPreservesExclusion(now: int)
      requires old(Valid()) && old(MutuallyExclusive()) && resources == old(resources)
      requires forall c :: c in Queued() ==>
                 c.isRunning == (old(c.isRunning) || Some(c) == old(Chosen(resources[c.resourceName], now)))
      ensures MutuallyExclusive()
    {
      forall r | r in resources
        ensures AtMostOneRunning(resources[r])
      {
        var q := resources[r];
        assert forall c :: c in q ==> c.resourceName == r;
        if old(AnyRunning(q)) {
          assert old(Chosen(q, now)).None?;
          forall i, j | 0 <= i < |q| && 0 <= j < |q| && q[i].isRunning && q[j].isRunning
            ensures q[i] == q[j]
          {
            assert old(q[i].isRunning) && old(q[j].isRunning);
          }
        } else {
          forall i, j | 0 <= i < |q| && 0 <= j < |q| && q[i].isRunning && q[j].isRunning
            ensures q[i] == q[j]
          {
            assert !old(q[i].isRunning) && !old(q[j].isRunning);
          }
        }
      }
    }
  }
}
