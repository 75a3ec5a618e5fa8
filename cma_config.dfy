/** Configuration templates, validation and default merging of cma/cmaconfig.py. */
module CmaConfig {
  import opened Wrappers

  /** The Python classes a type template can name. `int` also admits booleans,
      because bool is a subclass of int. */
  datatype TypeTag = IntType | BoolType | StrType | ClassTag(name: string)

  /** A configuration value: a JSON-like tree. `CInt` is a Python int or long
      (which of the two is decided by its size), `CList` a list or (when
      `isTuple`) a tuple, `CDict` a dict or a pyConfigContext (anything with
      keys()), `CObject` an instance of a foreign class such as pyNetAddr. */
  datatype CfgValue =
    | CInt(i: int)
    | CBool(b: bool)
    | CStr(s: string)
    | CObject(cls: string)
    | CList(items: seq<CfgValue>, isTuple: bool)
    | CDict(entries: map<string, CfgValue>)

  /** A template: a type; a dict of per-key templates, possibly with the `str`
      key (`anyKey`) that admits any key name; a one-element list; a set of
      admissible values; or anything else (never valid). */
  datatype Template =
    | TType(tag: TypeTag)
    | TDict(fields: map<string, Template>, anyKey: Option<Template>)
    | TList(elem: Template)
    | TSet(members: set<CfgValue>)
    | TOther

  // ----- _check_validity and its helpers -----

  /** The range of Python 2's `int` on a 64-bit platform; a larger integer is
      a `long`, which is not an instance of `int`. */
  const MinInt: int := -0x8000_0000_0000_0000
  const MaxInt: int := 0x7FFF_FFFF_FFFF_FFFF

  predicate IsInstance(v: CfgValue, tag: TypeTag)
  {
    match tag
    case IntType => (v.CInt? && MinInt <= v.i <= MaxInt) || v.CBool?
    case BoolType => v.CBool?
    case StrType => v.CStr?
    case ClassTag(name) => v.CObject? && v.cls == name
  }

  predicate CheckValidity(t: Template, v: CfgValue)
    decreases t, 1
  {
    match t
    case TType(tag) => CheckType(tag, v)
    case TDict(_, _) => CheckDict(t, v)
    case TList(_) => CheckList(t, v)
    case TSet(ms) => CheckSet(ms, v)
    case TOther => false
  }

  predicate CheckType(tag: TypeTag, v: CfgValue)
  {
    IsInstance(v, tag)
  }

  /** Whether Python can hash the value: lists and dicts cannot, and a tuple
      only when its items can. */
  predicate Hashable(v: CfgValue)
  {
    match v
    case CList(items, isTuple) => isTuple && forall x :: x in items ==> Hashable(x)
    case CDict(_) => false
    case _ => true
  }

  /** The membership test `configobj not in template` succeeds only for a
      hashable value (for any other it raises TypeError, see CanRaise). */
  predicate CheckSet(members: set<CfgValue>, v: CfgValue)
  {
    Hashable(v) && v in members
  }

  /** The message `'%s is not a dict' % (configobj)` for a value without
      keys(): the parentheses make no tuple, so a tuple value is itself the
      argument list, and any tuple but a 1-tuple makes the formatting raise
      TypeError. */
  predicate NotDictMessageRaises(v: CfgValue)
  {
    v.CList? && v.isTuple && |v.items| != 1
  }

  predicate CheckDict(t: Template, v: CfgValue)
    requires t.TDict?
    decreases t, 0
  {
    && v.CDict?
    && match t.anyKey
       case Some(vt) => forall k :: k in v.entries ==> CheckValidity(vt, v.entries[k])
       case None => forall k :: k in v.entries ==> k in t.fields && CheckValidity(t.fields[k], v.entries[k])
  }

  predicate CheckList(t: Template, v: CfgValue)
    requires t.TList?
    decreases t, 0
  {
    v.CList? && forall x :: x in v.items ==> CheckValidity(t.elem, x)
  }

  /** _check_validity returns False for SOME order of visiting the keys of the
      dicts inside `v`: a check fails that is reached before any other check
      fails or raises. (Lists are visited in order; dict key order is not
      known.) */
  predicate CanReject(t: Template, v: CfgValue)
    decreases t
  {
    match t
    case TType(tag) => !IsInstance(v, tag)
    case TSet(ms) => Hashable(v) && v !in ms
    case TOther => true
    case TList(elem) =>
      || !v.CList?
      || exists i | 0 <= i < |v.items| ::
           CanReject(elem, v.items[i]) && forall j | 0 <= j < i :: CheckValidity(elem, v.items[j])
    case TDict(fields, anyKey) =>
      if !v.CDict? then !NotDictMessageRaises(v)
      else exists k | k in v.entries ::
             match anyKey
             case Some(vt) => CanReject(vt, v.entries[k])
             case None => k !in fields || CanReject(fields[k], v.entries[k])
  }

  /** _check_validity raises TypeError for SOME order of visiting the keys:
      the membership test of a set template is reached with an unhashable
      value, or a dict template with a tuple that breaks its message, before
      any other check fails. */
  predicate CanRaise(t: Template, v: CfgValue)
    decreases t
  {
    match t
    case TType(_) => false
    case TSet(_) => !Hashable(v)
    case TOther => false
    case TList(elem) =>
      && v.CList?
      && exists i | 0 <= i < |v.items| ::
           CanRaise(elem, v.items[i]) && forall j | 0 <= j < i :: CheckValidity(elem, v.items[j])
    case TDict(fields, anyKey) =>
      if !v.CDict? then NotDictMessageRaises(v)
      else exists k | k in v.entries ::
             match anyKey
             case Some(vt) => CanRaise(vt, v.entries[k])
             case None => k in fields && CanRaise(fields[k], v.entries[k])
  }

  /** Every run of _check_validity has one of three outcomes: the value is
      valid exactly when no order of the checks can fail or raise. */
  lemma {:induction false} ValidityTrichotomy(t: Template, v: CfgValue)
    ensures CheckValidity(t, v) <==> !CanReject(t, v) && !CanRaise(t, v)
    decreases t
  {
    match t
    case TType(_) =>
    case TSet(_) =>
    case TOther =>
    case TList(elem) =>
      if v.CList? {
        var items := v.items;
        assert CheckValidity(t, v) <==> forall x :: x in items ==> CheckValidity(elem, x);
        if CheckValidity(t, v) {
          forall i | 0 <= i < |items|
            ensures !CanReject(elem, items[i]) && !CanRaise(elem, items[i])
          {
            assert items[i] in items;
            ValidityTrichotomy(elem, items[i]);
          }
        } else {
          var x :| x in items && !CheckValidity(elem, x);
          var w :| 0 <= w < |items| && items[w] == x;
          var i := 0;
          while CheckValidity(elem, items[i])
            invariant 0 <= i <= w
            invariant forall j :: 0 <= j < i ==> CheckValidity(elem, items[j])
            decreases w - i
          {
            i := i + 1;
          }
          ValidityTrichotomy(elem, items[i]);
        }
      }
    case TDict(fields, anyKey) =>
      if v.CDict? {
        var e := v.entries;
        DictValidity(t, e);
        if CheckValidity(t, v) {
          forall k | k in e
            ensures !CanReject(FieldTemplate(t, k).value, e[k]) && !CanRaise(FieldTemplate(t, k).value, e[k])
          {
            match anyKey
            case Some(vt) => ValidityTrichotomy(vt, e[k]);
            case None => ValidityTrichotomy(fields[k], e[k]);
          }
        } else {
          var k :| k in e && !(FieldTemplate(t, k).Some? && CheckValidity(FieldTemplate(t, k).value, e[k]));
          match anyKey
          case Some(vt) => ValidityTrichotomy(vt, e[k]);
          case None =>
            if k in fields {
              ValidityTrichotomy(fields[k], e[k]);
            }
        }
      }
  }

  /** The outcome of one run of _check_validity: (True, ''), (False, message)
      or a TypeError (a set check on an unhashable value, or the message of
      the dict check on a tuple). */
  datatype Verdict = Accepted | Rejected | Raised

  /** _check_validity and its four helpers, as loops. The dict helper visits
      the keys in an order it does not choose. */
  method Validate(t: Template, v: CfgValue) returns (r: Verdict)
    ensures r == Accepted <==> CheckValidity(t, v)
    ensures r == Rejected ==> CanReject(t, v)
    ensures r == Raised ==> CanRaise(t, v)
    decreases t, 1
  {
    match t
    case TType(tag) =>
      r := if IsInstance(v, tag) then Accepted else Rejected;
    case TSet(ms) =>
      r := if !Hashable(v) then Raised else if v !in ms then Rejected else Accepted;
    case TOther =>
      r := Rejected;
    case TList(_) =>
      r := ValidateList(t, v);
    case TDict(_, _) =>
      r := ValidateDict(t, v);
  }

  /** _check_validity_list: every item against the one element template. */
  method ValidateList(t: Template, v: CfgValue) returns (r: Verdict)
    requires t.TList?
    ensures r == Accepted <==> CheckValidity(t, v)
    ensures r == Rejected ==> CanReject(t, v)
    ensures r == Raised ==> CanRaise(t, v)
    decreases t, 0
  {
    if !v.CList? {
      return Rejected;
    }
    var i := 0;
    while i < |v.items|
      invariant 0 <= i <= |v.items|
      invariant forall j :: 0 <= j < i ==> CheckValidity(t.elem, v.items[j])
    {
      var ri := Validate(t.elem, v.items[i]);
      if ri != Accepted {
        return ri;
      }
      i := i + 1;
    }
    return Accepted;
  }

  /** _check_validity_dict: with the `str` key every value against its
      template, otherwise every key must be a template key and its value
      valid against that key's template. */
  method ValidateDict(t: Template, v: CfgValue) returns (r: Verdict)
    requires t.TDict?
    ensures r == Accepted <==> CheckValidity(t, v)
    ensures r == Rejected ==> CanReject(t, v)
    ensures r == Raised ==> CanRaise(t, v)
    decreases t, 0
  {
    if !v.CDict? {
      return if NotDictMessageRaises(v) then Raised else Rejected;
    }
    var e := v.entries;
    var keys := e.Keys;
    while keys != {}
      invariant keys <= e.Keys
      invariant forall k :: k in e && k !in keys ==>
                  FieldTemplate(t, k).Some? && CheckValidity(FieldTemplate(t, k).value, e[k])
      decreases keys
    {
      var k :| k in keys;
      var rk: Verdict;
      match t.anyKey {
        case Some(vt) =>
          rk := Validate(vt, e[k]);
        case None =>
          if k !in t.fields {
            return Rejected;
          }
          rk := Validate(t.fields[k], e[k]);
      }
      if rk != Accepted {
        return rk;
      }
      keys := keys - {k};
    }
    DictValidity(t, e);
    return Accepted;
  }

  /** The template a dict template applies to the value under `k`, if any. */
  function FieldTemplate(t: Template, k: string): Option<Template>
    requires t.TDict?
  {
    if t.anyKey.Some? then t.anyKey
    else if k in t.fields then Some(t.fields[k])
    else None
  }

  lemma DictValidity(t: Template, e: map<string, CfgValue>)
    requires t.TDict?
    ensures CheckValidity(t, CDict(e)) <==>
            forall k :: k in e ==> FieldTemplate(t, k).Some? && CheckValidity(FieldTemplate(t, k).value, e[k])
  {
  }

  /** The other template kinds: a type checks isinstance (a long is not an
      int), a set checks membership and raises TypeError for an unhashable
      value, a list needs a list or tuple whose every element validates (so
      the empty list is valid), a dict needs something with keys (without
      keys, a tuple of other than one item makes the message raise), and any
      other template rejects everything. */
  lemma TemplateKinds(t: Template, v: CfgValue)
    ensures t.TType? ==> (CheckValidity(t, v) <==> IsInstance(v, t.tag))
    ensures t.TType? ==> !CanRaise(t, v)
    ensures t.TType? && t.tag == IntType && v.CBool? ==> CheckValidity(t, v)
    ensures t.TType? && t.tag == IntType && v.CInt? ==> (CheckValidity(t, v) <==> MinInt <= v.i <= MaxInt)
    ensures t.TSet? ==> (CheckValidity(t, v) <==> Hashable(v) && v in t.members)
    ensures t.TSet? ==> (CanRaise(t, v) <==> !Hashable(v))
    ensures t.TSet? ==> (CanReject(t, v) <==> Hashable(v) && v !in t.members)
    ensures t.TList? ==> (CheckValidity(t, v) <==> v.CList? && forall x :: x in v.items ==> CheckValidity(t.elem, x))
    ensures t.TList? ==> CheckValidity(t, CList([], false)) && CheckValidity(t, CList([], true))
    ensures t.TDict? && !v.CDict? ==> !CheckValidity(t, v)
    ensures t.TDict? && !v.CDict? ==> (CanRaise(t, v) <==> NotDictMessageRaises(v)) && (CanReject(t, v) <==> !NotDictMessageRaises(v))
    ensures t.TOther? ==> !CheckValidity(t, v) && !CanRaise(t, v)
  {
  }

  /** A dict is valid only against a dict template (a set template cannot
      even hash it). */
  lemma DictNeedsDictTemplate(t: Template, e: map<string, CfgValue>)
    requires CheckValidity(t, CDict(e))
    ensures t.TDict?
  {
  }

  // ----- _merge_config_elems -----

  predicate OccursAt(k: string, s: string, i: int)
  {
    0 <= i <= |s| - |k| && s[i..i + |k|] == k
  }

  predicate IsSubstring(k: string, s: string)
  {
    exists i | 0 <= i <= |s| :: OccursAt(k, s, i)
  }

  /** Python's `k in config`: key membership for a dict, substring for a
      string, element membership for a list; None where it raises TypeError. */
  function Contains(config: CfgValue, k: string): Option<bool>
  {
    match config
    case CDict(e) => Some(k in e)
    case CStr(s) => Some(IsSubstring(k, s))
    case CList(items, _) => Some(CStr(k) in items)
    case _ => None
  }

  function Lookup(e: map<string, CfgValue>, k: string): Option<CfgValue>
  {
    if k in e then Some(e[k]) else None
  }

  /** Merge the defaults into a configuration; None when Python raises
      TypeError. Into a dict, every default key is handled on its own. Into
      anything else, nothing can be stored: the merge is a no-op when every
      default is a non-dict whose key `in` finds, and raises otherwise. */
  function Merge(d: map<string, CfgValue>, config: CfgValue): (r: Option<CfgValue>)
    decreases CDict(d), 2
  {
    match config
    case CDict(e) =>
      if Mergeable(d, e, d.Keys) then Some(CDict(MergedSoFar(d, e, d.Keys))) else None
    case _ =>
      if forall k :: k in d ==> !d[k].CDict? && Contains(config, k) == Some(true) then Some(config)
      else None
  }

  /** No default key in `done` makes the merge into the dict `e` raise. */
  predicate Mergeable(d: map<string, CfgValue>, e: map<string, CfgValue>, done: set<string>)
    decreases CDict(d), 0
  {
    forall k :: k in d && k in done ==> MergeElem(d[k], Lookup(e, k)).Some?
  }

  /** The dict `e` once the default keys in `done` have been merged into it. */
  function MergedSoFar(d: map<string, CfgValue>, e: map<string, CfgValue>, done: set<string>): (r: map<string, CfgValue>)
    requires Mergeable(d, e, done)
    ensures forall k :: k in r <==> k in e || (k in d && k in done)
    ensures forall k :: k in d && k in done ==> r[k] == MergeElem(d[k], Lookup(e, k)).value
    ensures forall k :: k in e && !(k in d && k in done) ==> r[k] == e[k]
    decreases CDict(d), 1
  {
    map k | k in e.Keys + (d.Keys * done) ::
      if k in d && k in done then MergeElem(d[k], Lookup(e, k)).value else e[k]
  }

  lemma MergedSoFarStep(d: map<string, CfgValue>, e: map<string, CfgValue>, done: set<string>, k: string)
    requires k in d && Mergeable(d, e, done) && MergeElem(d[k], Lookup(e, k)).Some?
    ensures Mergeable(d, e, done + {k})
    ensures MergedSoFar(d, e, done + {k}) == MergedSoFar(d, e, done)[k := MergeElem(d[k], Lookup(e, k)).value]
  {
    var a := MergedSoFar(d, e, done + {k});
    var b := MergedSoFar(d, e, done);
    var m := b[k := MergeElem(d[k], Lookup(e, k)).value];
    forall j | j in a
      ensures j in m && a[j] == m[j]
    {
      if j != k {
        assert j in b;
      }
    }
    forall j | j in m
      ensures j in a
    {
    }
    assert a.Keys == m.Keys;
  }

  /** The new value under one default key of a dict configuration: a dict
      default is merged into the present value (into a new empty context when
      absent); any other default is stored only when the key is absent. */
  function MergeElem(delem: CfgValue, current: Option<CfgValue>): Option<CfgValue>
    decreases delem, 3
  {
    match delem
    case CDict(sub) => Merge(sub, if current.None? then CDict(map[]) else current.value)
    case _ => Some(if current.None? then delem else current.value)
  }

  /** _merge_config_elems as a loop over the default keys, on values: the
      configuration is passed in and its updated version passed back; None
      when Python raises TypeError. */
  method MergeConfigElems(defaults: map<string, CfgValue>, config: CfgValue) returns (r: Option<CfgValue>)
    ensures r == Merge(defaults, config)
    decreases CDict(defaults), 0
  {
    var todo := defaults.Keys;
    var cfg := config;
    while todo != {}
      invariant todo <= defaults.Keys
      invariant config.CDict? ==>
        && Mergeable(defaults, config.entries, defaults.Keys - todo)
        && cfg == CDict(MergedSoFar(defaults, config.entries, defaults.Keys - todo))
      invariant !config.CDict? ==> cfg == config && forall k :: k in defaults && k !in todo ==>
                  !defaults[k].CDict? && Contains(config, k) == Some(true)
      decreases todo
    {
      var elem :| elem in todo;
      ghost var done := defaults.Keys - todo;
      var next := MergeElemInto(elem, defaults[elem], cfg);
      if next.None? {
        return None;
      }
      if config.CDict? {
        assert Lookup(cfg.entries, elem) == Lookup(config.entries, elem);
        MergedSoFarStep(defaults, config.entries, done, elem);
      }
      cfg := next.value;
      assert defaults.Keys - (todo - {elem}) == done + {elem};
      todo := todo - {elem};
    }
    assert defaults.Keys - todo == defaults.Keys;
    r := Some(cfg);
  }

  /** One turn of the loop of _merge_config_elems: the default `delem` under
      the key `elem` merged into `cfg`. */
  method MergeElemInto(elem: string, delem: CfgValue, cfg: CfgValue) returns (r: Option<CfgValue>)
    ensures cfg.CDict? ==>
              r == (var v := MergeElem(delem, Lookup(cfg.entries, elem));
                    if v.Some? then Some(CDict(cfg.entries[elem := v.value])) else None)
    ensures !cfg.CDict? ==>
              r == (if !delem.CDict? && Contains(cfg, elem) == Some(true) then Some(cfg) else None)
    decreases delem, 1
  {
    var present := Contains(cfg, elem);
    if present.None? {
      return None;
    }
    if delem.CDict? {
      if !cfg.CDict? {
        // `config[elem] = ...` or `config[elem]` on a string or a list
        return None;
      }
      var base := if elem in cfg.entries then cfg.entries[elem] else CDict(map[]);
      var sub := MergeConfigElems(delem.entries, base);
      if sub.None? {
        return None;
      }
      r := Some(CDict(cfg.entries[elem := sub.value]));
    } else if !present.value {
      if !cfg.CDict? {
        return None;
      }
      r := Some(CDict(cfg.entries[elem := delem]));
    } else {
      if cfg.CDict? {
        assert cfg.entries[elem := cfg.entries[elem]] == cfg.entries;
      }
      r := Some(cfg);
    }
  }

  /** Every key of the defaults is `in` the merged configuration, at every
      nesting level. */
  ghost predicate Covers(d: map<string, CfgValue>, v: CfgValue)
    decreases CDict(d)
  {
    forall k :: k in d ==>
      && Contains(v, k) == Some(true)
      && (d[k].CDict? ==> v.CDict? && Covers(d[k].entries, v.entries[k]))
  }

  lemma {:induction false} MergeCovers(d: map<string, CfgValue>, config: CfgValue)
    requires Merge(d, config).Some?
    ensures Covers(d, Merge(d, config).value)
    decreases CDict(d)
  {
    var m := Merge(d, config).value;
    if config.CDict? {
      forall k | k in d && d[k].CDict?
        ensures Covers(d[k].entries, m.entries[k])
      {
        var e := config.entries;
        var base := if k in e then e[k] else CDict(map[]);
        assert MergeElem(d[k], Lookup(e, k)) == Merge(d[k].entries, base);
        MergeCovers(d[k].entries, base);
      }
    }
  }

  /** The merge never overwrites a value already present: only dict defaults
      reach into an existing value (and only by merging into it); lists and
      other values in the configuration are kept whole. */
  lemma MergeKeepsPresent(d: map<string, CfgValue>, e: map<string, CfgValue>)
    requires Merge(d, CDict(e)).Some?
    ensures Merge(d, CDict(e)).value.CDict?
    ensures Merge(d, CDict(e)).value.entries.Keys == e.Keys + d.Keys
    ensures forall k :: k in e && (k !in d || !d[k].CDict?) ==> Merge(d, CDict(e)).value.entries[k] == e[k]
    ensures forall k :: k in d && k !in e && !d[k].CDict? ==> Merge(d, CDict(e)).value.entries[k] == d[k]
  {
  }

  /** Merging into an empty configuration yields the defaults themselves. */
  lemma {:induction false} MergeIntoEmpty(d: map<string, CfgValue>)
    ensures Merge(d, CDict(map[])) == Some(CDict(d))
    decreases CDict(d)
  {
    forall k | k in d
      ensures MergeElem(d[k], Lookup(map[], k)) == Some(d[k])
    {
      if d[k].CDict? {
        MergeIntoEmpty(d[k].entries);
      }
    }
    var empty: map<string, CfgValue> := map[];
    assert Mergeable(d, empty, d.Keys);
    assert MergedSoFar(d, empty, d.Keys) == d;
  }

  /** Merging the same defaults a second time changes nothing. */
  lemma {:induction false} MergeIdempotent(d: map<string, CfgValue>, config: CfgValue)
    requires Merge(d, config).Some?
    ensures Merge(d, Merge(d, config).value) == Merge(d, config)
    decreases CDict(d)
  {
    var m := Merge(d, config).value;
    if config.CDict? {
      var e := config.entries;
      forall k | k in d
        ensures MergeElem(d[k], Lookup(m.entries, k)) == Some(m.entries[k])
      {
        if d[k].CDict? {
          var base := if k in e then e[k] else CDict(map[]);
          MergeIdempotent(d[k].entries, base);
        }
      }
      assert Mergeable(d, m.entries, d.Keys);
      assert MergedSoFar(d, m.entries, d.Keys) == m.entries;
    }
  }

  /** complete_config cannot fail on valid input: when the defaults and the
      configuration are both valid against a template, the merge raises
      nothing and its result is valid too. */
  lemma {:induction false} MergeOfValidIsValid(t: Template, d: map<string, CfgValue>, config: CfgValue)
    requires CheckValidity(t, CDict(d)) && CheckValidity(t, config)
    ensures Merge(d, config).Some? && CheckValidity(t, Merge(d, config).value)
    decreases CDict(d)
  {
    DictNeedsDictTemplate(t, d);
    assert config.CDict?;
    var e := config.entries;
    DictValidity(t, d);
    DictValidity(t, e);
    forall k | k in d
      ensures MergeElem(d[k], Lookup(e, k)).Some?
      ensures CheckValidity(FieldTemplate(t, k).value, MergeElem(d[k], Lookup(e, k)).value)
    {
      var tk := FieldTemplate(t, k).value;
      if d[k].CDict? {
        if k in e {
          MergeOfValidIsValid(tk, d[k].entries, e[k]);
        } else {
          MergeIntoEmpty(d[k].entries);
        }
      }
    }
    assert Mergeable(d, e, d.Keys);
    var m := Merge(d, config).value;
    DictValidity(t, m.entries);
  }

  // ----- The ConfigFile class -----

  /** The class attribute default_template. */
  function IntervalTemplate(): Template
  {
    TDict(map["repeat" := TType(IntType), "timeout" := TType(IntType)], None)
  }

  function ActionTemplate(): Template
  {
    TDict(map["repeat" := TType(IntType), "timeout" := TType(IntType),
              "agents" := TDict(map[], Some(IntervalTemplate()))], None)
  }

  function DefaultTemplate(): Template
  {
    TDict(map[
      "OUI" := TDict(map[], Some(TType(StrType))),
      "optional_modules" := TList(TType(StrType)),
      "contrib_modules" := TList(TType(StrType)),
      "cmaport" := TType(IntType),
      "cmainit" := TType(ClassTag("pyNetAddr")),
      "cmaaddr" := TType(ClassTag("pyNetAddr")),
      "cmadisc" := TType(ClassTag("pyNetAddr")),
      "cmafail" := TType(ClassTag("pyNetAddr")),
      "outsig" := TType(ClassTag("pySignFrame")),
      "compress" := TType(ClassTag("pyCompressFrame")),
      "compression_method" := TSet({CStr("zlib")}),
      "compression_threshold" := TType(IntType),
      "discovery" := ActionTemplate(),
      "monitoring" := ActionTemplate(),
      "heartbeats" := TDict(map["repeat" := TType(IntType), "warn" := TType(IntType),
                                "dead" := TType(IntType)], None)
    ], None)
  }

  /** The class attribute default_config. */
  function DefaultConfig(): map<string, CfgValue>
  {
    map[
      "OUI" := CDict(map[
        "b0-79-3c" := CStr("Revolv, Inc."),
        "18-0c-ac" := CStr("Canon, Inc."),
        "cc-3a-61" := CStr("SAMSUNG ELECTRO MECHANICS CO., LTD."),
        "d8-50-e6" := CStr("ASUSTek COMPUTER INC.")]),
      "optional_modules" := CList([CStr("discoverylistener"), CStr("linkdiscovery"),
        CStr("checksumdiscovery"), CStr("monitoringdiscovery"), CStr("arpdiscovery")], false),
      "contrib_modules" := CList([], false),
      "cmaport" := CInt(1984),
      "cmainit" := CObject("pyNetAddr"),
      "compression_threshold" := CInt(20000),
      "compression_method" := CStr("zlib"),
      "discovery" := DiscoveryDefault(),
      "monitoring" := CDict(map[
        "repeat" := CInt(120),
        "timeout" := CInt(180),
        "agents" := CDict(map[])]),
      "heartbeats" := CDict(map["repeat" := CInt(1), "warn" := CInt(5), "dead" := CInt(30)])
    ]
  }

  lemma DefaultEntryIsValid(k: string)
    requires k in DefaultConfig()
    ensures k in DefaultTemplate().fields
    ensures CheckValidity(DefaultTemplate().fields[k], DefaultConfig()[k])
  {
    if k == "OUI" {
      OuiDefaultIsValid();
    } else if k == "discovery" {
      DiscoveryDefaultIsValid();
    } else if k == "monitoring" {
      MonitoringDefaultIsValid();
    } else if k == "heartbeats" {
      HeartbeatsDefaultIsValid();
    } else if k == "optional_modules" {
      ModulesDefaultIsValid();
    }
  }

  lemma MonitoringDefaultIsValid()
    ensures CheckValidity(DefaultTemplate().fields["monitoring"], DefaultConfig()["monitoring"])
  {
    var m := DefaultConfig()["monitoring"];
    assert m.entries.Keys == {"repeat", "timeout", "agents"};
  }

  lemma HeartbeatsDefaultIsValid()
    ensures CheckValidity(DefaultTemplate().fields["heartbeats"], DefaultConfig()["heartbeats"])
  {
    var h := DefaultConfig()["heartbeats"];
    assert h.entries.Keys == {"repeat", "warn", "dead"};
  }

  lemma ModulesDefaultIsValid()
    ensures CheckValidity(DefaultTemplate().fields["optional_modules"], DefaultConfig()["optional_modules"])
  {
    var l := DefaultConfig()["optional_modules"].items;
    assert forall i :: 0 <= i < |l| ==> l[i].CStr?;
  }

  lemma OuiDefaultIsValid()
    ensures CheckValidity(DefaultTemplate().fields["OUI"], DefaultConfig()["OUI"])
  {
    var oui := DefaultConfig()["OUI"].entries;
    assert forall k :: k in oui ==> oui[k].CStr?;
  }

  /** The shipped "discovery" value, as a literal. */
  function DiscoveryDefault(): CfgValue
  {
    CDict(map[
      "repeat" := CInt(15 * 60),
      "timeout" := CInt(300),
      "agents" := CDict(map[
        "checksumdiscovery" := CDict(map["repeat" := CInt(3600 * 8), "timeout" := CInt(10 * 60)])])])
  }

  lemma DiscoveryDefaultIsValid()
    ensures CheckValidity(DefaultTemplate().fields["discovery"], DefaultConfig()["discovery"])
  {
    assert DefaultConfig()["discovery"] == DiscoveryDefault();
    DiscoveryValueIsValid();
  }

  lemma DiscoveryValueIsValid()
    ensures CheckValidity(ActionTemplate(), DiscoveryDefault())
  {
    var disc := DiscoveryDefault();
    assert disc.entries.Keys == {"repeat", "timeout", "agents"};
    var agents := disc.entries["agents"];
    assert agents.entries.Keys == {"checksumdiscovery"};
    assert CheckValidity(IntervalTemplate(), agents.entries["checksumdiscovery"]);
  }

  /** With the shipped template, `compression_method` set to the list
      ["zlib"] can only make the validation raise TypeError (the list cannot
      be hashed), while the tuple ("zlib",) is only rejected. */
  lemma ListUnderSetRaises()
    ensures var cfg := CDict(map["compression_method" := CList([CStr("zlib")], false)]);
            CanRaise(DefaultTemplate(), cfg) && !CanReject(DefaultTemplate(), cfg)
    ensures var cfg := CDict(map["compression_method" := CList([CStr("zlib")], true)]);
            CanReject(DefaultTemplate(), cfg) && !CanRaise(DefaultTemplate(), cfg)
  {
    var t := DefaultTemplate();
    var ts := TSet({CStr("zlib")});
    assert t.fields["compression_method"] == ts;
    var list := CList([CStr("zlib")], false);
    var tuple := CList([CStr("zlib")], true);
    assert CanRaise(ts, list) && !CanReject(ts, list);
    assert Hashable(tuple) && tuple != CStr("zlib");
    assert CanReject(ts, tuple) && !CanRaise(ts, tuple);
  }

  /** With the shipped template, `heartbeats` set to the tuple (1, 2) can only
      make the validation raise TypeError, from the "is not a dict" message,
      while the 1-tuple (1,) is only rejected. */
  lemma TupleUnderDictRaises()
    ensures var cfg := CDict(map["heartbeats" := CList([CInt(1), CInt(2)], true)]);
            CanRaise(DefaultTemplate(), cfg) && !CanReject(DefaultTemplate(), cfg)
    ensures var cfg := CDict(map["heartbeats" := CList([CInt(1)], true)]);
            CanReject(DefaultTemplate(), cfg) && !CanRaise(DefaultTemplate(), cfg)
  {
    var th := DefaultTemplate().fields["heartbeats"];
    assert th.TDict?;
    var pair := CList([CInt(1), CInt(2)], true);
    var single := CList([CInt(1)], true);
    assert CanRaise(th, pair) && !CanReject(th, pair);
    assert CanReject(th, single) && !CanRaise(th, single);
  }

  /** The tuple of the three heartbeat key names. */
  function HeartbeatNames(): CfgValue
  {
    CList([CStr("repeat"), CStr("warn"), CStr("dead")], true)
  }

  /** complete_config with the shipped defaults on the configuration
      {"heartbeats": ("repeat", "warn", "dead")}: the merge keeps the tuple
      (every default heartbeat key is `in` it) and fills in the other
      defaults. */
  lemma HeartbeatsTupleMerged()
    ensures Merge(DefaultConfig(), CDict(map["heartbeats" := HeartbeatNames()])) ==
            Some(CDict(DefaultConfig()["heartbeats" := HeartbeatNames()]))
  {
    var d := DefaultConfig();
    var h := HeartbeatNames();
    var e := map["heartbeats" := h];
    var m := d["heartbeats" := h];
    HeartbeatNamesKept();
    forall k | k in d
      ensures MergeElem(d[k], Lookup(e, k)) == Some(m[k])
    {
      if k != "heartbeats" && d[k].CDict? {
        MergeIntoEmpty(d[k].entries);
      }
    }
    assert Mergeable(d, e, d.Keys);
    assert MergedSoFar(d, e, d.Keys) == m;
  }

  /** Merging the heartbeat defaults into the tuple of their names changes
      nothing: every name is `in` the tuple and no default is a dict. */
  lemma HeartbeatNamesKept()
    ensures Merge(DefaultConfig()["heartbeats"].entries, HeartbeatNames()) == Some(HeartbeatNames())
  {
    var h := HeartbeatNames();
    assert DefaultConfig()["heartbeats"].entries.Keys == {"repeat", "warn", "dead"};
    assert CStr("repeat") in h.items && CStr("warn") in h.items && CStr("dead") in h.items;
  }

  /** Validating that merged configuration against the shipped template can
      only raise TypeError (the tuple under the heartbeats dict template), so
      complete_config raises it where a ValueError might be expected. */
  lemma HeartbeatsTupleRaises()
    ensures var merged := CDict(DefaultConfig()["heartbeats" := HeartbeatNames()]);
            CanRaise(DefaultTemplate(), merged) && !CanReject(DefaultTemplate(), merged)
  {
    var d := DefaultConfig();
    var m := d["heartbeats" := HeartbeatNames()];
    var t := DefaultTemplate();
    forall k | k in m
      ensures k in t.fields && !CanReject(t.fields[k], m[k])
    {
      DefaultEntryIsValid(k);
      if k != "heartbeats" {
        ValidityTrichotomy(t.fields[k], d[k]);
      }
    }
    assert CanRaise(t.fields["heartbeats"], m["heartbeats"]);
  }

  /** The shipped defaults conform to the shipped template. */
  lemma DefaultConfigIsValid()
    ensures CheckValidity(DefaultTemplate(), CDict(DefaultConfig()))
  {
    forall k | k in DefaultConfig()
      ensures k in DefaultTemplate().fields && CheckValidity(DefaultTemplate().fields[k], DefaultConfig()[k])
    {
      DefaultEntryIsValid(k);
    }
  }

  datatype Completion = Completed(config: map<string, CfgValue>) | ValueError | TypeError

  /** The value isvalid checks: its argument, or the class default_config. */
  function OrDefaultConfig(cfg: Option<CfgValue>): CfgValue
  {
    if cfg.None? then CDict(DefaultConfig()) else cfg.value
  }

  class ConfigFile {
    const template: Template
    const defaults: map<string, CfgValue>
    /** the pyConfigContext holding the configuration */
    var config: map<string, CfgValue>

    /** `loaded` is what pyConfigContext read from the file (or the empty context). */
    constructor (template: Option<Template>, defaults: Option<map<string, CfgValue>>, loaded: map<string, CfgValue>)
      ensures this.template == (if template.None? then DefaultTemplate() else template.value)
      ensures this.defaults == (if defaults.None? then DefaultConfig() else defaults.value)
      ensures config == loaded
    {
      this.template := if template.None? then DefaultTemplate() else template.value;
      this.defaults := if defaults.None? then DefaultConfig() else defaults.value;
      config := loaded;
    }

    /** isvalid: without an argument it checks the CLASS default_config, not
        this object's defaults nor its configuration. With the default
        template that check passes. */
    method IsValid(cfg: Option<CfgValue>) returns (r: Verdict)
      ensures r == Accepted <==> CheckValidity(template, OrDefaultConfig(cfg))
      ensures r == Rejected ==> CanReject(template, OrDefaultConfig(cfg))
      ensures r == Raised ==> CanRaise(template, OrDefaultConfig(cfg))
      ensures template == DefaultTemplate() && cfg.None? ==> r == Accepted
    {
      r := Validate(template, OrDefaultConfig(cfg));
      DefaultConfigIsValid();
    }

    /** __setitem__: store the value, then validate (the class defaults);
        Rejected stands for the ValueError raised then and Raised for a
        TypeError of the validation. The outcome does not depend on the stored
        value; with the default template nothing is raised. */
    method SetItem(name: string, value: CfgValue) returns (outcome: Verdict)
      modifies this
      ensures config == old(config)[name := value]
      ensures outcome == Accepted <==> CheckValidity(template, CDict(DefaultConfig()))
      ensures outcome == Rejected ==> CanReject(template, CDict(DefaultConfig()))
      ensures outcome == Raised ==> CanRaise(template, CDict(DefaultConfig()))
      ensures template == DefaultTemplate() ==> outcome == Accepted
    {
      config := config[name := value];
      outcome := IsValid(None);
    }

    /** complete_config: merge the defaults into the configuration, then
        return it if valid; raise ValueError when a check fails and TypeError
        when the merge raises or the validation does (a set check on an
        unhashable value, or the "is not a dict" message on a tuple). On
        TypeError from the merge the configuration may be left partly merged. */
    method CompleteConfig() returns (r: Completion)
      modifies this
      ensures Merge(defaults, CDict(old(config))).None? ==> r == TypeError
      ensures Merge(defaults, CDict(old(config))).Some? ==>
                && Merge(defaults, CDict(old(config))).value == CDict(config)
                && (r.Completed? <==> CheckValidity(template, CDict(config)))
                && (r == ValueError ==> CanReject(template, CDict(config)))
                && (r == TypeError ==> CanRaise(template, CDict(config)))
      ensures r.Completed? ==> r.config == config
      ensures (CheckValidity(template, CDict(defaults)) &&
               CheckValidity(template, CDict(old(config)))) ==> r == Completed(config)
    {
      if CheckValidity(template, CDict(defaults)) && CheckValidity(template, CDict(config)) {
        MergeOfValidIsValid(template, defaults, CDict(config));
      }
      var merged := MergeConfigElems(defaults, CDict(config));
      if merged.None? {
        return TypeError;
      }
      MergeKeepsPresent(defaults, config);
      config := merged.value.entries;
      assert CDict(config) == Merge(defaults, CDict(old(config))).value;
      var verdict := IsValid(Some(CDict(config)));
      match verdict
      case Accepted => r := Completed(config);
      case Rejected => r := ValueError;
      case Raised => r := TypeError;
    }
  }
}
