/** The recursive-descent JSON object parser of clientlib/configcontext.c,
    over the token stream that the GScanner of that file produces.

    The parse functions below are the specification; the methods are the
    parser as written, consuming a Scanner token by token and filling a
    ConfigContext through its setters. */
module ConfigJsonParser {
  import opened Wrappers
  import opened ConfigContexts

  /** The tokens the parser distinguishes. `LeftBrace` is '[' (G_TOKEN_LEFT_BRACE);
      `Symbol` is G_TOKEN_SYMBOL for one of the scanner's registered symbols
      (true, false, null); `SymbolValue` is what a scanner configured with
      symbol_2_token, as the one of configcontext.c:383 is, reports for such a
      symbol instead: its value (the address of the word's static string) as
      the token type, which is none of the types the pair switch names;
      `Int` holds the unsigned 64-bit value of a digit string (a minus sign is
      a separate `Char` token); `Eof` is what the scanner reports at the end. */
  /** guint64, the type of the scanner's integer value. */
  type Uint64 = n: nat | n < 0x1_0000_0000_0000_0000

  datatype Token =
    | LeftCurly | RightCurly | LeftBrace | Comma | Colon
    | Str(s: string) | Int(n: Uint64) | Float
    | Symbol(name: string) | SymbolValue(name: string)
    | Identifier(name: string) | Char(c: char) | Eof

  type Values = map<string, ConfigValue>

  /** g_scanner_peek_next_token: Eof once the input is used up. */
  function Peek(toks: seq<Token>, pos: nat): Token
  {
    if pos < |toks| then toks[pos] else Eof
  }

  /** g_scanner_get_next_token: the scanner stays at the end once there. */
  function Gulp(toks: seq<Token>, pos: nat): nat
  {
    if pos < |toks| then pos + 1 else pos
  }

  /** The conversion of the scanned 64-bit integer to the `gint` parameter of
      setint: the low 32 bits, read as two's complement. */
  function ToGint(n: Uint64): (r: Gint)
    ensures r % 0x1_0000_0000 == n % 0x1_0000_0000
    ensures n < 0x8000_0000 ==> r == n
  {
    var m := n % 0x1_0000_0000;
    if m >= 0x8000_0000 then m - 0x1_0000_0000 else m
  }

  datatype PairOutcome = PairOutcome(ok: bool, values: Values, next: nat)
  datatype MembersOutcome = MembersOutcome(values: Values, next: nat)
  datatype ObjectOutcome = ObjectOutcome(result: Option<Values>, next: nat)

  /** _configcontext_JSON_parse_pair on the tokens from `pos`, storing into `vals`. */
  function PairSpec(toks: seq<Token>, pos: nat, vals: Values): (o: PairOutcome)
    requires pos <= |toks|
    ensures pos <= o.next <= |toks|
    ensures Peek(toks, pos).Str? ==> pos < o.next
    ensures !o.ok ==> o.values == vals
    decreases |toks| - pos, 0
  {
    if !Peek(toks, pos).Str? then PairOutcome(false, vals, pos)
    else
      var name := toks[pos].s;
      if Peek(toks, pos + 1) != Colon then PairOutcome(false, vals, pos + 1)
      else
        var at := pos + 2;
        match Peek(toks, at)
        case Str(v) => PairOutcome(true, vals[name := StringValue(v)], at + 1)
        case Int(n) => PairOutcome(true, vals[name := IntValue(ToGint(n))], at + 1)
        case Symbol(sym) =>
          if sym == "true" then PairOutcome(true, vals[name := IntValue(1)], at + 1)
          else if sym == "false" || sym == "null" then PairOutcome(true, vals[name := IntValue(0)], at + 1)
          else PairOutcome(false, vals, at + 1)
        case LeftCurly => PairOutcome(true, vals, ObjectSpec(toks, at).next)
        case _ => PairOutcome(false, vals, at)
  }

  /** _configcontext_JSON_parse_members: pairs as long as each is followed by a
      comma; a failed pair is not an error here. */
  function MembersSpec(toks: seq<Token>, pos: nat, vals: Values): (o: MembersOutcome)
    requires pos <= |toks|
    ensures pos <= o.next <= |toks|
    decreases |toks| - pos, 1
  {
    if !Peek(toks, pos).Str? then MembersOutcome(vals, pos)
    else
      var p := PairSpec(toks, pos, vals);
      if Peek(toks, p.next) == Comma then MembersSpec(toks, p.next + 1, p.values)
      else MembersOutcome(p.values, p.next)
  }

  /** _configcontext_JSON_parse_object: None stands for the NULL result. */
  function ObjectSpec(toks: seq<Token>, pos: nat): (o: ObjectOutcome)
    requires pos <= |toks|
    ensures pos <= o.next <= |toks|
    decreases |toks| - pos, 2
  {
    if Peek(toks, pos) != LeftCurly then ObjectOutcome(None, pos)
    else if Peek(toks, pos + 1) == RightCurly then ObjectOutcome(Some(map[]), pos + 2)
    else
      var m := MembersSpec(toks, pos + 1, map[]);
      if Peek(toks, m.next) == RightCurly then ObjectOutcome(Some(m.values), m.next + 1)
      else ObjectOutcome(None, Gulp(toks, m.next))
  }

  /** The scanner state the parser consumes. */
  class Scanner {
    const tokens: seq<Token>
    var pos: nat

    ghost predicate Valid()
      reads this
    {
      pos <= |tokens|
    }

    constructor (toks: seq<Token>)
      ensures Valid() && tokens == toks && pos == 0
    {
      tokens := toks;
      pos := 0;
    }

    method PeekNextToken() returns (t: Token)
      requires Valid()
      ensures t == Peek(tokens, pos)
    {
      t := if pos < |tokens| then tokens[pos] else Eof;
    }

    method GetNextToken() returns (t: Token)
      requires Valid()
      modifies this
      ensures Valid()
      ensures t == Peek(tokens, old(pos)) && pos == Gulp(tokens, old(pos))
    {
      if pos < |tokens| {
        t := tokens[pos];
        pos := pos + 1;
      } else {
        t := Eof;
      }
    }
  }

  method ParseObject(scan: Scanner) returns (cfg: ConfigContext?)
    requires scan.Valid()
    modifies scan
    ensures scan.Valid()
    ensures var o := ObjectSpec(scan.tokens, old(scan.pos));
            && scan.pos == o.next
            && (cfg == null <==> o.result.None?)
            && (cfg != null ==> fresh(cfg) && cfg.values == o.result.value)
    decreases |scan.tokens| - scan.pos, 2
  {
    var t := scan.PeekNextToken();
    if t != LeftCurly {
      return null;
    }
    t := scan.GetNextToken();
    cfg := new ConfigContext();
    t := scan.PeekNextToken();
    if t == RightCurly {
      t := scan.GetNextToken();
      return;
    }
    var membersRet := ParseMembers(scan, cfg);
    t := scan.GetNextToken();
    if t != RightCurly {
      return null;
    }
  }

  method ParseMembers(scan: Scanner, cfg: ConfigContext) returns (r: ConfigContext)
    requires scan.Valid()
    modifies scan, cfg
    ensures scan.Valid() && r == cfg
    ensures MembersSpec(scan.tokens, old(scan.pos), old(cfg.values)) == MembersOutcome(cfg.values, scan.pos)
    decreases |scan.tokens| - scan.pos, 1
  {
    var t := scan.PeekNextToken();
    while t.Str?
      invariant scan.Valid() && old(scan.pos) <= scan.pos
      invariant t == Peek(scan.tokens, scan.pos)
      invariant MembersSpec(scan.tokens, scan.pos, cfg.values) ==
                MembersSpec(scan.tokens, old(scan.pos), old(cfg.values))
      decreases |scan.tokens| - scan.pos
    {
      var _ := ParsePair(scan, cfg);
      t := scan.PeekNextToken();
      if t == Comma {
        t := scan.GetNextToken();
        t := scan.PeekNextToken();
      } else {
        break;
      }
    }
    r := cfg;
  }

  method ParsePair(scan: Scanner, cfg: ConfigContext) returns (ok: bool)
    requires scan.Valid()
    modifies scan, cfg
    ensures scan.Valid()
    ensures PairSpec(scan.tokens, old(scan.pos), old(cfg.values)) == PairOutcome(ok, cfg.values, scan.pos)
    decreases |scan.tokens| - scan.pos, 0
  {
    var t := scan.PeekNextToken();
    if !t.Str? {
      return false;
    }
    t := scan.GetNextToken();
    var name := t.s;
    t := scan.PeekNextToken();
    if t != Colon {
      return false;
    }
    t := scan.GetNextToken();
    t := scan.PeekNextToken();
    match t
    case Str(v) =>
      t := scan.GetNextToken();
      cfg.SetString(name, v);
      ok := true;
    case Int(n) =>
      t := scan.GetNextToken();
      cfg.SetInt(name, ToGint(n));
      ok := true;
    case Symbol(sym) =>
      t := scan.GetNextToken();
      if sym == "true" {
        cfg.SetInt(name, 1);
      } else if sym == "false" {
        cfg.SetInt(name, 0);
      } else if sym == "null" {
        cfg.SetInt(name, 0);
      } else {
        return false;
      }
      ok := true;
    case LeftCurly =>
      var _ := ParseObject(scan);
      ok := true;
    case _ =>
      return false;
  }

  // ----- Properties of the parse -----

  /** `{}` parses to an empty context. */
  lemma EmptyObject(toks: seq<Token>, pos: nat)
    requires pos + 2 <= |toks| && toks[pos] == LeftCurly && toks[pos + 1] == RightCurly
    ensures ObjectSpec(toks, pos) == ObjectOutcome(Some(map[]), pos + 2)
  {
  }

  /** Without an opening `{` nothing is consumed and the result is NULL. */
  lemma MissingOpenCurly(toks: seq<Token>, pos: nat)
    requires pos <= |toks| && Peek(toks, pos) != LeftCurly
    ensures ObjectSpec(toks, pos) == ObjectOutcome(None, pos)
  {
  }

  /** Without the closing `}` after the members the result is NULL, whatever
      pairs were read; the token found instead is consumed. */
  lemma MissingCloseCurly(toks: seq<Token>, pos: nat)
    requires pos < |toks| && toks[pos] == LeftCurly && Peek(toks, pos + 1) != RightCurly
    requires Peek(toks, MembersSpec(toks, pos + 1, map[]).next) != RightCurly
    ensures ObjectSpec(toks, pos) ==
            ObjectOutcome(None, Gulp(toks, MembersSpec(toks, pos + 1, map[]).next))
  {
  }

  /** A pair that fails is not an error: when a comma follows where it
      stopped, reading goes on after the comma with the values unchanged. */
  lemma FailedPairSkipped(toks: seq<Token>, p: nat, vals: Values)
    requires p <= |toks| && Peek(toks, p).Str?
    requires !PairSpec(toks, p, vals).ok && Peek(toks, PairSpec(toks, p, vals).next) == Comma
    ensures MembersSpec(toks, p, vals) == MembersSpec(toks, PairSpec(toks, p, vals).next + 1, vals)
  {
  }

  /** Consequently malformed members are accepted: `{"a"}` parses to an empty
      context and `{"a", "b": 1}` to one holding only b. */
  lemma MalformedMembersAccepted()
    ensures ObjectSpec([LeftCurly, Str("a"), RightCurly], 0) == ObjectOutcome(Some(map[]), 3)
    ensures ObjectSpec([LeftCurly, Str("a"), Comma, Str("b"), Colon, Int(1), RightCurly], 0) ==
            ObjectOutcome(Some(map["b" := IntValue(1)]), 7)
  {
    var toks := [LeftCurly, Str("a"), Comma, Str("b"), Colon, Int(1), RightCurly];
    assert PairSpec(toks, 1, map[]) == PairOutcome(false, map[], 2);
    assert PairSpec(toks, 3, map[]) == PairOutcome(true, map["b" := IntValue(1)], 6);
    assert MembersSpec(toks, 1, map[]) == MembersOutcome(map["b" := IntValue(1)], 6);
  }

  /** The value kinds the parser stores, as they appear in the input. */
  datatype Scalar = SString(s: string) | SInt(n: Uint64) | STrue | SFalse | SNull

  function ScalarToken(v: Scalar): Token
  {
    match v
    case SString(s) => Str(s)
    case SInt(n) => Int(n)
    case STrue => Symbol("true")
    case SFalse => Symbol("false")
    case SNull => Symbol("null")
  }

  /** What the parser stores for a scalar: strings as strings, integers as
      (32-bit) integers, true as 1, false and null as 0. */
  function ScalarValue(v: Scalar): ConfigValue
  {
    match v
    case SString(s) => StringValue(s)
    case SInt(n) => IntValue(ToGint(n))
    case STrue => IntValue(1)
    case SFalse => IntValue(0)
    case SNull => IntValue(0)
  }

  /** A `"name": scalar` pair stores the scalar's value under the name,
      replacing any earlier value, and consumes three tokens. */
  lemma ScalarPair(toks: seq<Token>, pos: nat, vals: Values, name: string, v: Scalar)
    requires pos + 3 <= |toks|
    requires toks[pos] == Str(name) && toks[pos + 1] == Colon && toks[pos + 2] == ScalarToken(v)
    ensures PairSpec(toks, pos, vals) == PairOutcome(true, vals[name := ScalarValue(v)], pos + 3)
  {
  }

  /** A float, an array, a bare identifier, a stray character or a symbol
      reported by its value as the value makes the pair fail, before the
      value is consumed. */
  lemma UnsupportedValueFails(toks: seq<Token>, pos: nat, vals: Values, name: string)
    requires pos + 3 <= |toks|
    requires toks[pos] == Str(name) && toks[pos + 1] == Colon
    requires || toks[pos + 2].Float? || toks[pos + 2].LeftBrace? || toks[pos + 2].Identifier?
             || toks[pos + 2].Char? || toks[pos + 2].SymbolValue?
    ensures PairSpec(toks, pos, vals) == PairOutcome(false, vals, pos + 2)
  {
  }

  /** With the scanner as configured (symbol_2_token), `true`, `false` and
      `null` arrive as SymbolValue tokens, so the G_TOKEN_SYMBOL case is never
      reached: `{"name": true}` makes its pair fail, the members stop before
      the value, and the object is NULL after consuming that value. */
  lemma ConfiguredSymbolFails(name: string, word: string)
    requires word in {"true", "false", "null"}
    ensures ObjectSpec([LeftCurly, Str(name), Colon, SymbolValue(word), RightCurly], 0) == ObjectOutcome(None, 4)
  {
    var toks := [LeftCurly, Str(name), Colon, SymbolValue(word), RightCurly];
    assert PairSpec(toks, 1, map[]) == PairOutcome(false, map[], 3);
    assert MembersSpec(toks, 1, map[]) == MembersOutcome(map[], 3);
  }

  /** A nested object is parsed (whatever its outcome) and its contents
      discarded; the pair still succeeds. */
  lemma NestedObjectDiscarded(toks: seq<Token>, pos: nat, vals: Values, name: string)
    requires pos + 3 <= |toks|
    requires toks[pos] == Str(name) && toks[pos + 1] == Colon && toks[pos + 2] == LeftCurly
    ensures PairSpec(toks, pos, vals) == PairOutcome(true, vals, ObjectSpec(toks, pos + 2).next)
  {
  }

  /** The tokens of `"name": value` pairs separated by commas. */
  function PairTokens(p: (string, Scalar)): seq<Token>
  {
    [Str(p.0), Colon, ScalarToken(p.1)]
  }

  function EncodeMembers(ps: seq<(string, Scalar)>): seq<Token>
  {
    if |ps| == 0 then []
    else if |ps| == 1 then PairTokens(ps[0])
    else PairTokens(ps[0]) + [Comma] + EncodeMembers(ps[1..])
  }

  /** Storing the pairs in order: a later pair for the same name wins. */
  function Store(vals: Values, ps: seq<(string, Scalar)>): Values
    decreases |ps|
  {
    if ps == [] then vals else Store(vals[ps[0].0 := ScalarValue(ps[0].1)], ps[1..])
  }

  lemma {:induction false} EncodeMembersLength(ps: seq<(string, Scalar)>)
    ensures |ps| > 0 ==> |EncodeMembers(ps)| == 4 * |ps| - 1
  {
    if |ps| > 1 {
      EncodeMembersLength(ps[1..]);
    }
  }

  lemma {:induction false} MembersOfEncoded(toks: seq<Token>, pos: nat, ps: seq<(string, Scalar)>, vals: Values)
    requires |ps| > 0
    requires pos + |EncodeMembers(ps)| < |toks|
    requires toks[pos..pos + |EncodeMembers(ps)|] == EncodeMembers(ps)
    requires toks[pos + |EncodeMembers(ps)|] != Comma
    ensures MembersSpec(toks, pos, vals) == MembersOutcome(Store(vals, ps), pos + |EncodeMembers(ps)|)
    decreases |ps|
  {
    var enc := EncodeMembers(ps);
    assert toks[pos..pos + 3] == enc[..3] == PairTokens(ps[0]);
    assert toks[pos] == Str(ps[0].0) && toks[pos + 1] == Colon && toks[pos + 2] == ScalarToken(ps[0].1);
    ScalarPair(toks, pos, vals, ps[0].0, ps[0].1);
    var vals' := vals[ps[0].0 := ScalarValue(ps[0].1)];
    if |ps| == 1 {
      assert Store(vals, ps) == vals';
    } else {
      var rest := EncodeMembers(ps[1..]);
      EncodeMembersLength(ps[1..]);
      assert enc == PairTokens(ps[0]) + [Comma] + rest;
      assert toks[pos + 3] == enc[3] == Comma;
      assert toks[pos + 4..pos + 4 + |rest|] == enc[4..] == rest;
      MembersOfEncoded(toks, pos + 4, ps[1..], vals');
    }
  }

  /** Round trip: the tokens of a flat object of scalar pairs parse to the
      context that stores those pairs in order. */
  lemma ParseFlatObject(ps: seq<(string, Scalar)>)
    ensures var toks := [LeftCurly] + EncodeMembers(ps) + [RightCurly];
            ObjectSpec(toks, 0) == ObjectOutcome(Some(Store(map[], ps)), |toks|)
  {
    var toks := [LeftCurly] + EncodeMembers(ps) + [RightCurly];
    if |ps| == 0 {
      assert toks == [LeftCurly, RightCurly];
    } else {
      var enc := EncodeMembers(ps);
      EncodeMembersLength(ps);
      assert toks[1..1 + |enc|] == enc;
      assert toks[1] == Str(ps[0].0);
      MembersOfEncoded(toks, 1, ps, map[]);
    }
  }
}
