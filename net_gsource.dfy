/** The FrameSet listener table of clientlib/netgsource.c: registering a
    listener per FrameSet type, the choice of listener for each received
    FrameSet, and the GSource prepare/check answers. */
module NetGSources {
  import opened Wrappers

  /** A FrameSet type: a guint16. Type 0 is also the NULL key of the table. */
  type FrameSetType = t: int | 0 <= t < 0x1_0000

  /** The NULL key under which the default listener is kept. */
  const DefaultKey: FrameSetType := 0

  /** A Listener object, by identity. */
  datatype ListenerId = ListenerId(id: nat)

  /** A received FrameSet: its type and, standing for its frames, an identity. */
  datatype FrameSet = FrameSet(fstype: FrameSetType, id: nat)

  /** One result of recvframesets: the FrameSets of one packet, in list
      order, and the address they came from. */
  datatype Batch = Batch(framesets: seq<FrameSet>, src: nat)

  /** What happens to one FrameSet: got_frameset on a listener, or the
      "No dispatcher" warning. */
  datatype Delivery =
    | Delivered(listener: ListenerId, fs: FrameSet, src: nat)
    | NoDispatcher(fs: FrameSet)

  /** g_hash_table_lookup: NULL both for a missing key and for a stored NULL. */
  function Lookup(table: map<FrameSetType, Option<ListenerId>>, key: FrameSetType): Option<ListenerId>
  {
    if key in table then table[key] else None
  }

  /** The listener a FrameSet of type `t` goes to: the one under its type,
      else the one under the NULL key, else none. */
  function Route(table: map<FrameSetType, Option<ListenerId>>, t: FrameSetType): (r: Option<ListenerId>)
    ensures r.Some? <==> Lookup(table, t).Some? || Lookup(table, DefaultKey).Some?
    ensures Lookup(table, t).Some? ==> r == Lookup(table, t)
  {
    var own := Lookup(table, t);
    if own.Some? then own else Lookup(table, DefaultKey)
  }

  function Outcome(table: map<FrameSetType, Option<ListenerId>>, fs: FrameSet, src: nat): Delivery
  {
    match Route(table, fs.fstype)
    case Some(l) => Delivered(l, fs, src)
    case None => NoDispatcher(fs)
  }

  function BatchLog(table: map<FrameSetType, Option<ListenerId>>, b: Batch): seq<Delivery>
  {
    seq(|b.framesets|, i requires 0 <= i < |b.framesets| => Outcome(table, b.framesets[i], b.src))
  }

  /** Everything a dispatch does with the given batches, in order. */
  function DispatchLog(table: map<FrameSetType, Option<ListenerId>>, batches: seq<Batch>): seq<Delivery>
  {
    if batches == [] then []
    else DispatchLog(table, batches[..|batches| - 1]) + BatchLog(table, batches[|batches| - 1])
  }

  /** Every received FrameSet with the address of its batch, in arrival order. */
  function Received(batches: seq<Batch>): seq<(FrameSet, nat)>
  {
    if batches == [] then []
    else
      var b := batches[|batches| - 1];
      Received(batches[..|batches| - 1]) + seq(|b.framesets|, i requires 0 <= i < |b.framesets| => (b.framesets[i], b.src))
  }

  /** Each received FrameSet is handled exactly once, in arrival order, by
      the listener Route picks for its type or with a warning. */
  lemma {:induction false} DispatchHandlesEachOnce(table: map<FrameSetType, Option<ListenerId>>, batches: seq<Batch>)
    ensures |DispatchLog(table, batches)| == |Received(batches)|
    ensures forall i :: 0 <= i < |Received(batches)| ==>
              DispatchLog(table, batches)[i] == Outcome(table, Received(batches)[i].0, Received(batches)[i].1)
  {
    if batches != [] {
      DispatchHandlesEachOnce(table, batches[..|batches| - 1]);
    }
  }

  /** A FrameSet reaches its own type's listener whenever one is registered,
      the default listener otherwise, and nobody when neither exists. */
  lemma OutcomeRule(table: map<FrameSetType, Option<ListenerId>>, fs: FrameSet, src: nat)
    ensures Lookup(table, fs.fstype).Some? ==>
              Outcome(table, fs, src) == Delivered(Lookup(table, fs.fstype).value, fs, src)
    ensures Lookup(table, fs.fstype).None? && Lookup(table, DefaultKey).Some? ==>
              Outcome(table, fs, src) == Delivered(Lookup(table, DefaultKey).value, fs, src)
    ensures Outcome(table, fs, src).NoDispatcher? <==>
              Lookup(table, fs.fstype).None? && Lookup(table, DefaultKey).None?
  {
  }

  /** Registering replaces the entry for one type: the type now goes to the
      new listener, or (for a NULL listener) falls back to the default; no
      other type changes unless the NULL key itself was replaced, and then
      every type without a listener of its own follows the new default. */
  lemma AddListenerRouting(table: map<FrameSetType, Option<ListenerId>>, t: FrameSetType,
                           disp: Option<ListenerId>, u: FrameSetType)
    ensures disp.Some? ==> Route(table[t := disp], t) == disp
    ensures disp.None? && t != DefaultKey ==> Route(table[t := disp], t) == Lookup(table, DefaultKey)
    ensures u != t && t != DefaultKey ==> Route(table[t := disp], u) == Route(table, u)
    ensures t == DefaultKey && Lookup(table, u).None? ==> Route(table[t := disp], u) == disp
  {
  }

  /** GSource prepare: always FALSE, although its comment says TRUE. */
  function Prepare(): (ready: bool)
    ensures !ready
  {
    false
  }

  class NetGSource {
    /** _dispatchers: FrameSet type (NULL for the default) to Listener or NULL */
    var dispatchers: map<FrameSetType, Option<ListenerId>>
    /** _gfd.revents as set by the last poll */
    var revents: int

    constructor ()
      ensures dispatchers == map[] && revents == 0
    {
      dispatchers := map[];
      revents := 0;
    }

    /** GSource check: ready exactly when poll reported some event. */
    function Check(): (ready: bool)
      reads this
      ensures ready <==> revents != 0
    {
      0 != revents
    }

    /** _netgsource_addListener: store the listener (possibly NULL) under the
        type, replacing any previous entry. Replacing passes the old entry to
        the table's value destructor, which UNREFs it: the entry replaced must
        not be NULL. */
    method AddListener(fstype: FrameSetType, disp: Option<ListenerId>)
      requires fstype in dispatchers ==> dispatchers[fstype].Some?
      modifies this
      ensures dispatchers == old(dispatchers)[fstype := disp]
      ensures revents == old(revents)
      ensures disp.Some? ==> Route(dispatchers, fstype) == disp
    {
      dispatchers := dispatchers[fstype := disp];
    }

    /** _netgsource_dispatch over the batches recvframesets returns before it
        returns NULL. Answers TRUE, so the source stays installed. */
    method Dispatch(batches: seq<Batch>) returns (keep: bool, log: seq<Delivery>)
      ensures keep
      ensures log == DispatchLog(dispatchers, batches)
    {
      log := [];
      var i := 0;
      while i < |batches|
        invariant 0 <= i <= |batches|
        invariant log == DispatchLog(dispatchers, batches[..i])
      {
        var b := batches[i];
        ghost var before := log;
        var j := 0;
        while j < |b.framesets|
          invariant 0 <= j <= |b.framesets|
          invariant log == before + BatchLog(dispatchers, Batch(b.framesets[..j], b.src))
        {
          var fs := b.framesets[j];
          var disp := Lookup(dispatchers, fs.fstype);
          if disp.None? {
            disp := Lookup(dispatchers, DefaultKey);
          }
          if disp.Some? {
            log := log + [Delivered(disp.value, fs, b.src)];
          } else {
            log := log + [NoDispatcher(fs)];
          }
          assert b.framesets[..j + 1] == b.framesets[..j] + [fs];
          j := j + 1;
        }
        assert b.framesets[..j] == b.framesets;
        assert batches[..i + 1][..i] == batches[..i];
        i := i + 1;
      }
      assert batches[..i] == batches;
      keep := true;
    }
  }
}
