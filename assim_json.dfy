/** The JSON serialiser of cma/assimjson.py: JSONtree._jsonesc and
    JSONtree._jsonstr over a model of the Python values it is given. */
module AssimJson {
  import ConfigContexts

  /** Python 2's `int` on a 64-bit platform; anything larger is a `long`. */
  type PyIntValue = i: int | -0x8000_0000_0000_0000 <= i <= 0x7FFF_FFFF_FFFF_FFFF

  /** The Python values _jsonstr serialises without raising. Dicts and objects
      keep their keys in the order keys() yields them. Addresses, floats and
      pyConfigContext values are leaves holding the text their str() gives.
      None, sets, longs and dicts with non-string keys make _jsonstr raise
      and are not values of this type. */
  datatype PyThing =
    | PyList(items: seq<PyThing>)               // list or tuple
    | PyDict(entries: seq<(string, PyThing)>)   // dict with string keys
    | PyNetAddr(text: string)
    | PyBool(b: bool)
    | PyInt(i: PyIntValue)
    | PyNumberText(text: string)                // float or pyConfigContext
    | PyStr(s: string)                          // str or unicode
    | PyObject(attrs: seq<(string, PyThing)>)   // an instance with a __dict__: its attributes

  // ----- _jsonesc -----

  /** The first substitution: every backslash doubled. */
  function EscBackslashes(s: string): string
  {
    if s == [] then []
    else (if s[0] == '\\' then ['\\', '\\'] else [s[0]]) + EscBackslashes(s[1..])
  }

  /** The second substitution: a backslash put in front of every double quote. */
  function EscQuotes(s: string): string
  {
    if s == [] then []
    else (if s[0] == '"' then ['\\', '"'] else [s[0]]) + EscQuotes(s[1..])
  }

  function JsonEsc(s: string): string
  {
    EscQuotes(EscBackslashes(s))
  }

  lemma {:induction false} EscQuotesAppend(a: string, b: string)
    ensures EscQuotes(a + b) == EscQuotes(a) + EscQuotes(b)
  {
    if a != [] {
      assert (a + b)[1..] == a[1..] + b;
      EscQuotesAppend(a[1..], b);
    } else {
      assert a + b == b;
    }
  }

  /** The two passes escape exactly what the single pass of JSONquotestring in
      configcontext.c escapes: the backslashes the first pass adds are not
      quotes, and the second pass adds none. */
  lemma {:induction false} JsonEscIsQuoted(s: string)
    ensures JsonEsc(s) == ConfigContexts.Quoted(s)
  {
    if s != [] {
      JsonEscIsQuoted(s[1..]);
      var head := if s[0] == '\\' then ['\\', '\\'] else [s[0]];
      assert EscBackslashes(s) == head + EscBackslashes(s[1..]);
      EscQuotesAppend(head, EscBackslashes(s[1..]));
      if s[0] == '\\' {
        assert EscQuotes(head) == ['\\', '\\'];
      } else if s[0] == '"' {
        assert EscQuotes(head) == ['\\', '"'];
      } else {
        assert EscQuotes(head) == [s[0]];
      }
    }
  }

  /** A string with no backslash and no double quote is left unchanged. */
  lemma JsonEscIdentity(s: string)
    requires !ConfigContexts.HasJsonQuote(s)
    ensures JsonEsc(s) == s
  {
    JsonEscIsQuoted(s);
    ConfigContexts.QuotedIdentity(s);
  }

  /** Escaping loses nothing: dropping each escaping backslash gives the
      original back. */
  lemma JsonEscInvertible(s: string)
    ensures ConfigContexts.Unquote(JsonEsc(s)) == s
  {
    JsonEscIsQuoted(s);
    ConfigContexts.UnquoteQuoted(s);
  }

  // ----- _jsonstr -----

  /** The loop `ret += comma + part; comma = ','` over the parts. */
  function Accumulate(parts: seq<string>, comma: string): string
  {
    if parts == [] then [] else comma + parts[0] + Accumulate(parts[1..], ",")
  }

  /** The parts joined with `sep` between consecutive ones. */
  function Join(parts: seq<string>, sep: string): (r: string)
    ensures parts == [] ==> r == []
    ensures |parts| == 1 ==> r == parts[0]
  {
    if parts == [] then []
    else if |parts| == 1 then parts[0]
    else parts[0] + sep + Join(parts[1..], sep)
  }

  function Member(key: string, value: string): string
  {
    "\"" + key + "\":" + value
  }

  /** The attributes of an object that are not skipped: those whose names do
      not start with an underscore. */
  function Public(attrs: seq<(string, PyThing)>): (r: seq<(string, PyThing)>)
    ensures forall p :: p in r ==> p in attrs
  {
    if attrs == [] then []
    else if |attrs[0].0| > 0 && attrs[0].0[0] == '_' then Public(attrs[1..])
    else [attrs[0]] + Public(attrs[1..])
  }

  function DecimalDigits(n: nat): string
  {
    if n < 10 then ["0123456789"[n]] else DecimalDigits(n / 10) + ["0123456789"[n % 10]]
  }

  /** str() of a Python int. */
  function IntText(i: int): string
  {
    if i < 0 then "-" + DecimalDigits(-i) else DecimalDigits(i)
  }

  function JsonStr(thing: PyThing): string
  {
    match thing
    case PyList(items) =>
      var parts := seq(|items|, k requires 0 <= k < |items| => JsonStr(items[k]));
      (if |items| == 0 then "[" else "") + Accumulate(parts, "[") + "]"
    case PyDict(entries) =>
      var parts := seq(|entries|, k requires 0 <= k < |entries| =>
                     Member(JsonEsc(entries[k].0), JsonStr(entries[k].1)));
      "{" + Accumulate(parts, "") + "}"
    case PyNetAddr(text) => "\"" + text + "\""
    case PyBool(b) => if b then "true" else "false"
    case PyInt(i) => IntText(i)
    case PyNumberText(text) => text
    case PyStr(s) => "\"" + JsonEsc(s) + "\""
    case PyObject(attrs) =>
      var pub := Public(attrs);
      var parts := seq(|pub|, k requires 0 <= k < |pub| =>
                     assert pub[k] in attrs; Member(pub[k].0, JsonStr(pub[k].1)));
      "{" + Accumulate(parts, "") + "}"
  }

  lemma {:induction false} AccumulateJoins(parts: seq<string>, comma: string)
    ensures Accumulate(parts, comma) == if parts == [] then [] else comma + Join(parts, ",")
  {
    if |parts| > 1 {
      AccumulateJoins(parts[1..], ",");
      assert parts[1..][0] == parts[1];
    }
  }

  /** A list is `[`, its items' serialisations joined by commas, `]`; the empty
      list gives `[]`. */
  lemma ListForm(items: seq<PyThing>)
    ensures JsonStr(PyList(items)) ==
            "[" + Join(seq(|items|, k requires 0 <= k < |items| => JsonStr(items[k])), ",") + "]"
    ensures items == [] ==> JsonStr(PyList(items)) == "[]"
  {
    AccumulateJoins(seq(|items|, k requires 0 <= k < |items| => JsonStr(items[k])), "[");
  }

  /** A dict is `{`, its `"escaped-key":value` members joined by commas, `}`. */
  lemma DictForm(entries: seq<(string, PyThing)>)
    ensures JsonStr(PyDict(entries)) ==
            "{" + Join(seq(|entries|, k requires 0 <= k < |entries| =>
                           Member(JsonEsc(entries[k].0), JsonStr(entries[k].1))), ",") + "}"
  {
    AccumulateJoins(seq(|entries|, k requires 0 <= k < |entries| =>
                          Member(JsonEsc(entries[k].0), JsonStr(entries[k].1))), "");
  }

  /** Booleans are tested before integers, so True never becomes 1. */
  lemma BoolsAreWords(b: bool)
    ensures JsonStr(PyBool(b)) == (if b then "true" else "false")
    ensures JsonStr(PyBool(b)) != JsonStr(PyInt(if b then 1 else 0))
  {
    assert IntText(if b then 1 else 0) == DecimalDigits(if b then 1 else 0);
  }

  /** A string is quoted after escaping, exactly as JSONquotestring would
      escape it, and the escaped body gives the string back. */
  lemma StringForm(s: string)
    ensures JsonStr(PyStr(s)) == "\"" + ConfigContexts.Quoted(s) + "\""
    ensures ConfigContexts.Unquote(JsonStr(PyStr(s))[1..|JsonStr(PyStr(s))| - 1]) == s
  {
    JsonEscIsQuoted(s);
    JsonEscInvertible(s);
    var t := JsonStr(PyStr(s));
    assert t[1..|t| - 1] == JsonEsc(s);
  }

  lemma {:induction false} PublicSkipsUnderscores(attrs: seq<(string, PyThing)>)
    ensures forall p :: p in Public(attrs) ==> !(|p.0| > 0 && p.0[0] == '_')
    ensures forall p :: p in attrs && !(|p.0| > 0 && p.0[0] == '_') ==> p in Public(attrs)
  {
    if attrs != [] {
      PublicSkipsUnderscores(attrs[1..]);
      assert forall p :: p in attrs ==> p == attrs[0] || p in attrs[1..];
    }
  }

  /** An object is written as the dict of its attributes without the ones
      starting with `_`, in order, except that attribute names are not
      escaped: with names free of backslashes and quotes the two agree. */
  lemma ObjectForm(attrs: seq<(string, PyThing)>)
    ensures forall p :: p in Public(attrs) <==> p in attrs && !(|p.0| > 0 && p.0[0] == '_')
    ensures (forall p :: p in Public(attrs) ==> !ConfigContexts.HasJsonQuote(p.0)) ==>
              JsonStr(PyObject(attrs)) == JsonStr(PyDict(Public(attrs)))
  {
    PublicSkipsUnderscores(attrs);
    var pub := Public(attrs);
    if forall p :: p in pub ==> !ConfigContexts.HasJsonQuote(p.0) {
      forall k | 0 <= k < |pub|
        ensures JsonEsc(pub[k].0) == pub[k].0
      {
        assert pub[k] in pub;
        JsonEscIdentity(pub[k].0);
      }
      var objParts := seq(|pub|, k requires 0 <= k < |pub| => Member(pub[k].0, JsonStr(pub[k].1)));
      var dictParts := seq(|pub|, k requires 0 <= k < |pub| => Member(JsonEsc(pub[k].0), JsonStr(pub[k].1)));
      assert objParts == dictParts;
    }
  }

  lemma AccumulateOne(parts: seq<string>, comma: string)
    requires |parts| == 1
    ensures Accumulate(parts, comma) == comma + parts[0]
  {
    assert parts[1..] == [];
  }

  /** Escaping a dict key whose text has a quote changes it, so an object
      attribute with such a name is written differently from the same dict. */
  lemma AttributeNamesUnescaped()
    ensures JsonStr(PyObject([("a\"b", PyInt(0))])) != JsonStr(PyDict([("a\"b", PyInt(0))]))
  {
    var attrs := [("a\"b", PyInt(0))];
    assert Public(attrs) == attrs;
    assert JsonStr(PyInt(0)) == "0" by {
      assert IntText(0) == "0";
    }
    JsonEscIsQuoted("a\"b");
    assert JsonEsc("a\"b") == "a\\\"b";
    var om := Member("a\"b", "0");
    var dm := Member(JsonEsc("a\"b"), "0");
    var pub := Public(attrs);
    var oparts := seq(|pub|, k requires 0 <= k < |pub| =>
                    assert pub[k] in attrs; Member(pub[k].0, JsonStr(pub[k].1)));
    var dparts := seq(|attrs|, k requires 0 <= k < |attrs| =>
                    Member(JsonEsc(attrs[k].0), JsonStr(attrs[k].1)));
    assert oparts == [om];
    assert dparts == [dm];
    assert JsonStr(PyObject(attrs)) == "{" + Accumulate([om], "") + "}";
    assert JsonStr(PyDict(attrs)) == "{" + Accumulate([dm], "") + "}";
    AccumulateOne([om], "");
    AccumulateOne([dm], "");
    assert JsonStr(PyObject(attrs))[3] == '"';
    assert JsonStr(PyDict(attrs))[3] == '\\';
  }
}
