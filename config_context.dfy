/** The ConfigContext typed name/value store of clientlib/configcontext.c and
    its JSON string quoting. */
module ConfigContexts {
  import opened Wrappers

  /** A C `gint`: a 32-bit signed integer. */
  type Gint = x: int | -0x8000_0000 <= x < 0x8000_0000

  /** The value types a ConfigContext can report (enum ConfigValType);
      CfgEExist is the answer for a name that has no value. */
  datatype ValType =
    | CfgEExist | CfgNull | CfgBool | CfgInt64 | CfgFloat | CfgString
    | CfgArray | CfgCfgCtx | CfgNetAddr | CfgFrame

  /** Identity of a referenced NetAddr object. */
  datatype NetAddr = NetAddr(id: nat)
  /** Identity of a referenced Frame object. */
  datatype Frame = Frame(id: nat)

  /** A stored value, as created by the four setters of this file. */
  datatype ConfigValue =
    | IntValue(i: Gint)
    | StringValue(s: string)
    | AddrValue(addr: NetAddr)
    | FrameValue(frame: Frame)

  function TypeOf(v: ConfigValue): ValType
  {
    match v
    case IntValue(_) => CfgInt64
    case StringValue(_) => CfgString
    case AddrValue(_) => CfgNetAddr
    case FrameValue(_) => CfgFrame
  }

  class ConfigContext {
    /** the `_values` hash table: name -> value */
    var values: map<string, ConfigValue>

    constructor ()
      ensures values == map[]
    {
      values := map[];
    }

    /** The type of the value stored under `name`, CfgEExist when there is none. */
    function GetType(name: string): (t: ValType)
      reads this
      ensures t == CfgEExist <==> name !in values
      ensures name in values ==> t == TypeOf(values[name])
    {
      if name in values then TypeOf(values[name]) else CfgEExist
    }

    /** The integer stored under `name`; -1 when the name is absent or holds
        another type. */
    function GetInt(name: string): (r: Gint)
      reads this
      ensures GetType(name) == CfgInt64 ==> values[name] == IntValue(r)
      ensures GetType(name) != CfgInt64 ==> r == -1
    {
      if name in values && values[name].IntValue? then values[name].i else -1
    }

    /** The string stored under `name`; None (NULL) when absent or of another type. */
    function GetString(name: string): (r: Option<string>)
      reads this
      ensures r.Some? <==> GetType(name) == CfgString
      ensures r.Some? ==> values[name] == StringValue(r.value)
    {
      if name in values && values[name].StringValue? then Some(values[name].s) else None
    }

    /** The NetAddr stored under `name`; None (NULL) when absent or of another type. */
    function GetAddr(name: string): (r: Option<NetAddr>)
      reads this
      ensures r.Some? <==> GetType(name) == CfgNetAddr
      ensures r.Some? ==> values[name] == AddrValue(r.value)
    {
      if name in values && values[name].AddrValue? then Some(values[name].addr) else None
    }

    /** The Frame stored under `name`; None (NULL) when absent or of another type. */
    function GetFrame(name: string): (r: Option<Frame>)
      reads this
      ensures r.Some? <==> GetType(name) == CfgFrame
      ensures r.Some? ==> values[name] == FrameValue(r.value)
    {
      if name in values && values[name].FrameValue? then Some(values[name].frame) else None
    }

    /** Replace whatever `name` held by the integer `v`. */
    method SetInt(name: string, v: Gint)
      modifies this
      ensures values == old(values)[name := IntValue(v)]
      ensures GetType(name) == CfgInt64 && GetInt(name) == v
      ensures GetString(name).None? && GetAddr(name).None? && GetFrame(name).None?
    {
      values := values[name := IntValue(v)];
    }

    /** Replace whatever `name` held by a copy of the string `v`. */
    method SetString(name: string, v: string)
      modifies this
      ensures values == old(values)[name := StringValue(v)]
      ensures GetType(name) == CfgString && GetString(name) == Some(v)
      ensures GetInt(name) == -1 && GetAddr(name).None? && GetFrame(name).None?
    {
      values := values[name := StringValue(v)];
    }

    /** Replace whatever `name` held by the address `addr`. */
    method SetAddr(name: string, addr: NetAddr)
      modifies this
      ensures values == old(values)[name := AddrValue(addr)]
      ensures GetType(name) == CfgNetAddr && GetAddr(name) == Some(addr)
      ensures GetInt(name) == -1 && GetString(name).None? && GetFrame(name).None?
    {
      values := values[name := AddrValue(addr)];
    }

    /** Replace whatever `name` held by the frame `frame`. */
    method SetFrame(name: string, frame: Frame)
      modifies this
      ensures values == old(values)[name := FrameValue(frame)]
      ensures GetType(name) == CfgFrame && GetFrame(name) == Some(frame)
      ensures GetInt(name) == -1 && GetString(name).None? && GetAddr(name).None?
    {
      values := values[name := FrameValue(frame)];
    }
  }

  /** The two characters JSONquotestring escapes: backslash and double quote. */
  predicate IsJsonQuote(c: char)
  {
    c == '\\' || c == '"'
  }

  predicate HasJsonQuote(s: string)
  {
    exists i | 0 <= i < |s| :: IsJsonQuote(s[i])
  }

  /** The quoted form: every character in order, a backslash in front of each
      backslash and double quote. The C string stops at its first NUL, so
      only NUL-free strings stand for C strings here; on them strpbrk and the
      copy loop see every character. */
  function Quoted(s: string): string
  {
    if s == [] then []
    else (if IsJsonQuote(s[0]) then ['\\', s[0]] else [s[0]]) + Quoted(s[1..])
  }

  /** How many characters of `s` get escaped. */
  function CountJsonQuotes(s: string): nat
  {
    if s == [] then 0 else (if IsJsonQuote(s[0]) then 1 else 0) + CountJsonQuotes(s[1..])
  }

  /** Drop every escaping backslash: a backslash followed by a character
      stands for that character. */
  function Unquote(t: string): string
  {
    if t == [] then []
    else if t[0] == '\\' && |t| >= 2 then [t[1]] + Unquote(t[2..])
    else [t[0]] + Unquote(t[1..])
  }

  lemma {:induction false} QuotedAppend(a: string, b: string)
    ensures Quoted(a + b) == Quoted(a) + Quoted(b)
  {
    if a != [] {
      assert (a + b)[1..] == a[1..] + b;
      QuotedAppend(a[1..], b);
    } else {
      assert a + b == b;
    }
  }

  /** Output length = input length + number of escaped characters. */
  lemma {:induction false} QuotedLength(s: string)
    ensures |Quoted(s)| == |s| + CountJsonQuotes(s)
  {
    if s != [] {
      QuotedLength(s[1..]);
    }
  }

  /** A string with no backslash and no double quote is its own quoted form. */
  lemma {:induction false} QuotedIdentity(s: string)
    requires !HasJsonQuote(s)
    ensures Quoted(s) == s
  {
    if s != [] {
      assert !IsJsonQuote(s[0]);
      assert !HasJsonQuote(s[1..]) by {
        forall i | 0 <= i < |s[1..]| ensures !IsJsonQuote(s[1..][i]) {
          assert s[1..][i] == s[i + 1];
        }
      }
      QuotedIdentity(s[1..]);
      assert [s[0]] + s[1..] == s;
    }
  }

  /** Removing the escaping backslashes recovers the input. */
  lemma {:induction false} UnquoteQuoted(s: string)
    ensures Unquote(Quoted(s)) == s
  {
    if s != [] {
      UnquoteQuoted(s[1..]);
      var t := Quoted(s);
      if IsJsonQuote(s[0]) {
        assert t == ['\\', s[0]] + Quoted(s[1..]);
        assert t[2..] == Quoted(s[1..]);
      } else {
        assert t == [s[0]] + Quoted(s[1..]);
        assert t[1..] == Quoted(s[1..]);
      }
      assert [s[0]] + s[1..] == s;
    }
  }

  /** JSONquotestring: the input itself when nothing needs escaping, otherwise
      a new string built character by character. `s` is the text of a C
      string, so it holds no NUL. */
  method JsonQuoteString(s: string) returns (r: string)
    ensures r == Quoted(s)
    ensures !HasJsonQuote(s) ==> r == s
  {
    if !HasJsonQuote(s) {
      QuotedIdentity(s);
      return s;
    }
    r := [];
    var i := 0;
    while i < |s|
      invariant 0 <= i <= |s|
      invariant r == Quoted(s[..i])
    {
      if IsJsonQuote(s[i]) {
        r := r + ['\\'];
      }
      r := r + [s[i]];
      QuotedAppend(s[..i], [s[i]]);
      assert s[..i + 1] == s[..i] + [s[i]];
      i := i + 1;
    }
    assert s[..i] == s;
  }
}
