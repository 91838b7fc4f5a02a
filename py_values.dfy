/** Python values as the modelled code meets them: parsed JSON documents,
    dictionaries and their scalars. A dictionary keeps its keys in insertion
    order (an association list); lookups take the first entry for a key. */
module PyValues {
  import opened Common
  import opened Text

  datatype Value =
    | Null
    | Bool(b: bool)
    | Int(i: int)
    | Str(s: string)
    | List(items: seq<Value>)
    | Dict(entries: seq<(string, Value)>)

  /** `bool(v)` */
  predicate Truthy(v: Value) {
    match v
    case Null => false
    case Bool(b) => b
    case Int(i) => i != 0
    case Str(s) => s != []
    case List(items) => items != []
    case Dict(entries) => entries != []
  }

  function TypeName(v: Value): string {
    match v
    case Null => "NoneType"
    case Bool(_) => "bool"
    case Int(_) => "int"
    case Str(_) => "str"
    case List(_) => "list"
    case Dict(_) => "dict"
  }

  function Keys(entries: seq<(string, Value)>): (ks: seq<string>)
    ensures |ks| == |entries|
    ensures forall i :: 0 <= i < |entries| ==> ks[i] == entries[i].0
  {
    if entries == [] then [] else [entries[0].0] + Keys(entries[1..])
  }

  /** The value stored under `key`, if any. */
  function Lookup(entries: seq<(string, Value)>, key: string): (r: Option<Value>)
    ensures r.None? <==> key !in Keys(entries)
    ensures r.Some? ==> exists i :: 0 <= i < |entries| && entries[i] == (key, r.value)
  {
    if entries == [] then None
    else if entries[0].0 == key then Some(entries[0].1)
    else
      var r := Lookup(entries[1..], key);
      assert Keys(entries) == [entries[0].0] + Keys(entries[1..]);
      if r.Some? then
        assert exists i :: 0 <= i < |entries[1..]| && entries[1..][i] == (key, r.value);
        var i :| 0 <= i < |entries[1..]| && entries[1..][i] == (key, r.value);
        assert entries[i + 1] == (key, r.value);
        r
      else r
  }

  /** `d.get(key, default)` on a dictionary. */
  function Get(entries: seq<(string, Value)>, key: string, default: Value): Value {
    match Lookup(entries, key)
    case Some(v) => v
    case None => default
  }

  /** `key in v` for a string key: membership of keys in a dictionary, of
      elements in a list, substring in a string; any other type raises. */
  function Contains(v: Value, key: string): (r: Result<bool>)
    ensures r.Err? <==> !(v.Dict? || v.List? || v.Str?)
    ensures v.Dict? ==> r == Ok(key in Keys(v.entries))
  {
    match v
    case Dict(entries) => Ok(key in Keys(entries))
    case List(items) => Ok(Str(key) in items)
    case Str(s) => Ok(IsSubstring(key, s))
    case _ => Err(Exc(TypeError, "argument of type '" + TypeName(v) + "' is not iterable"))
  }

  /** `v[key]` for a string key. */
  function GetItem(v: Value, key: string): (r: Result<Value>)
    ensures r.Ok? <==> v.Dict? && key in Keys(v.entries)
    ensures r.Ok? ==> Lookup(v.entries, key) == Some(r.value)
  {
    match v
    case Dict(entries) =>
      (match Lookup(entries, key)
       case Some(x) => Ok(x)
       case None => Err(Exc(KeyError, StrRepr(key))))
    case List(_) => Err(Exc(TypeError, "list indices must be integers or slices, not str"))
    case Str(_) => Err(Exc(TypeError, "string indices must be integers, not 'str'"))
    case _ => Err(Exc(TypeError, "'" + TypeName(v) + "' object is not subscriptable"))
  }

  /** `for x in v`: list elements, dictionary keys, or the characters of a
      string; any other type raises. */
  function Iterate(v: Value): (r: Result<seq<Value>>)
    ensures r.Err? <==> !(v.Dict? || v.List? || v.Str?)
    ensures v.List? ==> r == Ok(v.items)
  {
    match v
    case List(items) => Ok(items)
    case Dict(entries) => Ok(seq(|entries|, i requires 0 <= i < |entries| => Str(entries[i].0)))
    case Str(s) => Ok(seq(|s|, i requires 0 <= i < |s| => Str([s[i]])))
    case _ => Err(Exc(TypeError, "'" + TypeName(v) + "' object is not iterable"))
  }

  /** The characters `repr` writes as themselves, after Python's
      `str.isprintable`: printable ASCII, and from U+00A1 on everything but
      the soft hyphen, the Unicode spaces and line and paragraph separators,
      the format characters of the General Punctuation block, the byte order
      mark, the interlinear annotation marks, and the private-use and
      non-character code points. */
  predicate IsPrintable(c: char) {
    var n := c as int;
    if n < 0x7F then 0x20 <= n
    else if n <= 0xA0 then false
    else !(|| n == 0xAD || n == 0x1680 || 0x2000 <= n <= 0x200F || 0x2028 <= n <= 0x202F
           || 0x205F <= n <= 0x206F || n == 0x3000 || 0xE000 <= n <= 0xF8FF || n == 0xFEFF
           || 0xFFF9 <= n <= 0xFFFB || n == 0xFFFE || n == 0xFFFF || 0xF0000 <= n)
  }

  predicate IsHexDigit(c: char) { '0' <= c <= '9' || 'a' <= c <= 'f' || 'A' <= c <= 'F' }

  function HexDigitValue(c: char): (d: nat)
    requires IsHexDigit(c)
    ensures d < 16
  {
    if c <= '9' then c as int - '0' as int
    else if c <= 'F' then c as int - 'A' as int + 10
    else c as int - 'a' as int + 10
  }

  /** A lower-case hexadecimal digit, as `repr` writes them. */
  function HexDigit(d: nat): (c: char)
    requires d < 16
    ensures IsHexDigit(c) && HexDigitValue(c) == d
  {
    if d < 10 then ('0' as int + d) as char else ('a' as int + d - 10) as char
  }

  predicate AllHex(t: string) { forall i :: 0 <= i < |t| ==> IsHexDigit(t[i]) }

  function HexValue(t: string): (n: nat)
    requires AllHex(t)
    decreases |t|
  {
    if t == [] then 0 else HexValue(t[..|t| - 1]) * 16 + HexDigitValue(t[|t| - 1])
  }

  function Pow16(w: nat): (p: nat)
    ensures p > 0
  {
    if w == 0 then 1 else 16 * Pow16(w - 1)
  }

  /** `n` as exactly `w` lower-case hexadecimal digits; they read back as `n`
      whenever `n` fits. */
  function Hex(n: nat, w: nat): (r: string)
    ensures |r| == w && AllHex(r)
    ensures n < Pow16(w) ==> HexValue(r) == n
    decreases w
  {
    if w == 0 then []
    else
      var r := Hex(n / 16, w - 1) + [HexDigit(n % 16)];
      assert r[..|r| - 1] == Hex(n / 16, w - 1);
      r
  }

  /** How `repr` writes the character `c` between the quotes `q`. */
  function EscapeChar(c: char, q: char): (r: string)
    ensures |r| > 0
  {
    if c == '\\' || c == q then ['\\', c]
    else if c == '\t' then "\\t"
    else if c == '\n' then "\\n"
    else if c == '\r' then "\\r"
    else if IsPrintable(c) then [c]
    else if c as int < 0x100 then "\\x" + Hex(c as int, 2)
    else if c as int < 0x10000 then "\\u" + Hex(c as int, 4)
    else "\\U" + Hex(c as int, 8)
  }

  function Escaped(s: string, q: char): string
    decreases |s|
  {
    if s == [] then [] else EscapeChar(s[0], q) + Escaped(s[1..], q)
  }

  /** The quote `repr` picks: double quotes only for a text that holds a
      single quote and no double quote. */
  function QuoteFor(s: string): (q: char)
    ensures q == '"' <==> '\'' in s && '"' !in s
    ensures q == '\'' || q == '"'
  {
    if '\'' in s && '"' !in s then '"' else '\''
  }

  /** `repr(s)` for a string. */
  function StrRepr(s: string): (r: string)
    ensures |r| >= 2 && r[0] == QuoteFor(s) && r[|r| - 1] == QuoteFor(s)
  {
    var q := QuoteFor(s);
    [q] + Escaped(s, q) + [q]
  }

  function Cons(c: char, rest: Option<string>): Option<string> {
    match rest
    case None => None
    case Some(t) => Some([c] + t)
  }

  /** The character with code point `n`, if there is one. */
  function CharOf(n: nat): (r: Option<char>)
    ensures r.Some? ==> r.value as int == n
  {
    if n < 0xD800 || 0xE000 <= n < 0x110000 then Some(n as char) else None
  }

  /** The character a one-letter escape such as `\\n` stands for. */
  function NamedEscape(e: char): Option<char> {
    if e == '\\' || e == '\'' || e == '"' then Some(e)
    else if e == 't' then Some('\t')
    else if e == 'n' then Some('\n')
    else if e == 'r' then Some('\r')
    else None
  }

  /** The number of hex digits after `\\x`, `\\u` and `\\U`; 0 for any other letter. */
  function CodeWidth(e: char): nat {
    if e == 'x' then 2 else if e == 'u' then 4 else if e == 'U' then 8 else 0
  }

  /** The character whose code point the hex digits `h` spell, if any. */
  function CodedChar(h: string): Option<char> {
    if AllHex(h) then CharOf(HexValue(h)) else None
  }

  /** How Python reads the body of a string literal back: a character other
      than a backslash stands for itself, and each escape `repr` writes stands
      for its character; any other backslash is rejected. */
  function Unescape(t: string): (r: Option<string>)
    decreases |t|
  {
    if t == [] then Some([])
    else if t[0] != '\\' then Cons(t[0], Unescape(t[1..]))
    else if |t| < 2 then None
    else
      match NamedEscape(t[1])
      case Some(c) => Cons(c, Unescape(t[2..]))
      case None =>
        var w := CodeWidth(t[1]);
        if w == 0 || |t| < 2 + w then None
        else
          match CodedChar(t[2..2 + w])
          case None => None
          case Some(c) => Cons(c, Unescape(t[2 + w..]))
  }

  /** Reading back a `\\x`, `\\u` or `\\U` escape gives its character. */
  lemma UnescapeCoded(c: char, e: char, w: nat, rest: string)
    requires (e == 'x' && w == 2) || (e == 'u' && w == 4) || (e == 'U' && w == 8)
    requires c as int < Pow16(w)
    ensures Unescape(['\\', e] + Hex(c as int, w) + rest) == Cons(c, Unescape(rest))
  {
    var t := ['\\', e] + Hex(c as int, w) + rest;
    assert t[0] == '\\' && t[1] == e && |t| >= 2 + w;
    assert NamedEscape(e).None? && CodeWidth(e) == w;
    assert t[2..2 + w] == Hex(c as int, w);
    assert CodedChar(Hex(c as int, w)) == Some(c);
    assert t[2 + w..] == rest;
  }

  /** Reading back one written character consumes exactly its escape. */
  lemma UnescapeStep(c: char, q: char, rest: string)
    requires q == '\'' || q == '"'
    ensures Unescape(EscapeChar(c, q) + rest) == Cons(c, Unescape(rest))
  {
    var t := EscapeChar(c, q) + rest;
    var n := c as int;
    if c == '\\' || c == q || c == '\t' || c == '\n' || c == '\r' {
      assert t[2..] == rest;
    } else if IsPrintable(c) {
      assert t[1..] == rest;
    } else if n < 0x100 {
      assert Pow16(2) == 256;
      UnescapeCoded(c, 'x', 2, rest);
    } else if n < 0x10000 {
      assert Pow16(4) == 65536 by { assert Pow16(2) == 256; }
      UnescapeCoded(c, 'u', 4, rest);
    } else {
      assert Pow16(8) == 0x1_0000_0000 by { assert Pow16(4) == 65536 by { assert Pow16(2) == 256; } }
      UnescapeCoded(c, 'U', 8, rest);
    }
  }

  /** Python reads the text `repr` writes back as the original string. */
  lemma {:induction false} EscapedRoundTrip(s: string, q: char)
    requires q == '\'' || q == '"'
    ensures Unescape(Escaped(s, q)) == Some(s)
    decreases |s|
  {
    if s != [] {
      var rest := Escaped(s[1..], q);
      assert Escaped(s, q) == EscapeChar(s[0], q) + rest;
      EscapedRoundTrip(s[1..], q);
      UnescapeStep(s[0], q, rest);
      assert Cons(s[0], Some(s[1..])) == Some([s[0]] + s[1..]);
      assert [s[0]] + s[1..] == s;
    }
  }

  /** `eval(repr(s)) == s`: between its quotes, `repr(s)` reads back as `s`. */
  lemma StrReprRoundTrip(s: string)
    ensures var r := StrRepr(s); Unescape(r[1..|r| - 1]) == Some(s)
  {
    var r := StrRepr(s);
    assert r[1..|r| - 1] == Escaped(s, QuoteFor(s));
    EscapedRoundTrip(s, QuoteFor(s));
  }

  /** Every character `repr` writes is printable. */
  lemma {:induction false} EscapedPrintable(s: string, q: char)
    requires q == '\'' || q == '"'
    ensures forall i :: 0 <= i < |Escaped(s, q)| ==> IsPrintable(Escaped(s, q)[i])
    decreases |s|
  {
    if s != [] {
      EscapedPrintable(s[1..], q);
      EscapeCharPrintable(s[0], q);
      var e, t := EscapeChar(s[0], q), Escaped(s[1..], q);
      forall i | 0 <= i < |e + t|
        ensures IsPrintable((e + t)[i])
      {
        if i >= |e| {
          assert (e + t)[i] == t[i - |e|];
        }
      }
    }
  }

  lemma EscapeCharPrintable(c: char, q: char)
    requires q == '\'' || q == '"'
    ensures forall i :: 0 <= i < |EscapeChar(c, q)| ==> IsPrintable(EscapeChar(c, q)[i])
  {
    var n := c as int;
    if !(c == '\\' || c == q || c == '\t' || c == '\n' || c == '\r' || IsPrintable(c)) {
      var w := if n < 0x100 then 2 else if n < 0x10000 then 4 else 8;
      var h := Hex(n, w);
      assert forall i :: 0 <= i < |h| ==> IsPrintable(h[i]);
    }
  }

  /** Printable text without quotes or backslashes is only wrapped in single
      quotes. */
  lemma {:induction false} StrReprPlain(s: string)
    requires forall i :: 0 <= i < |s| ==> IsPrintable(s[i]) && s[i] != '\\' && s[i] != '\''
    ensures StrRepr(s) == "'" + s + "'"
  {
    assert QuoteFor(s) == '\'';
    EscapedPlain(s);
  }

  lemma {:induction false} EscapedPlain(s: string)
    requires forall i :: 0 <= i < |s| ==> IsPrintable(s[i]) && s[i] != '\\' && s[i] != '\''
    ensures Escaped(s, '\'') == s
    decreases |s|
  {
    if s != [] {
      EscapedPlain(s[1..]);
      assert [s[0]] + s[1..] == s;
    }
  }

  /** `repr(v)` */
  function Repr(v: Value): string
    decreases v, 1
  {
    match v
    case Str(s) => StrRepr(s)
    case _ => Render(v)
  }

  /** `str(v)` */
  function Render(v: Value): string
    decreases v, 0
  {
    match v
    case Null => "None"
    case Bool(b) => if b then "True" else "False"
    case Int(i) => IntToString(i)
    case Str(s) => s
    case List(items) => "[" + ReprItems(v, items) + "]"
    case Dict(entries) => "{" + ReprEntries(v, entries) + "}"
  }

  function ReprItems(parent: Value, items: seq<Value>): string
    requires forall x :: x in items ==> x < parent
    decreases parent, 0, |items|
  {
    if items == [] then ""
    else
      assert items[0] in items;
      if |items| == 1 then Repr(items[0])
      else
        assert forall x :: x in items[1..] ==> x in items;
        Repr(items[0]) + ", " + ReprItems(parent, items[1..])
  }

  function ReprEntries(parent: Value, entries: seq<(string, Value)>): string
    requires forall e :: e in entries ==> e.1 < parent
    decreases parent, 0, |entries|
  {
    if entries == [] then ""
    else
      assert entries[0] in entries;
      assert forall e :: e in entries[1..] ==> e in entries;
      var head := StrRepr(entries[0].0) + ": " + Repr(entries[0].1);
      if |entries| == 1 then head else head + ", " + ReprEntries(parent, entries[1..])
  }
}
