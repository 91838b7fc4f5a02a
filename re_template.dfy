/** The replacement strings of Python's `re.sub`.  A replacement is a
    template: it is compiled before the pattern is searched for, its
    backslash escapes are processed, and a bad escape or a reference to a
    group the pattern does not have raises `re.error`, whether or not the
    pattern matches.  The two patterns this model substitutes with
    (`<p>.*?</p>` and `<table.*?>.*?</table>`) have no capturing groups, so
    the only group a template may name is the whole match, `\g<0>`. */
module ReTemplate {
  import opened Common
  import opened Text

  /** One part of a compiled template: a character, or the whole match. */
  datatype Piece = Lit(c: char) | WholeMatch

  predicate IsOctal(c: char) { '0' <= c <= '7' }

  /** A template without escapes. */
  predicate NoBackslash(s: string) {
    forall x :: 0 <= x < |s| ==> s[x] != '\\'
  }

  lemma NoBackslashConcat(a: string, b: string)
    ensures NoBackslash(a + b) <==> NoBackslash(a) && NoBackslash(b)
  {
    if NoBackslash(a) && NoBackslash(b) {
      forall x | 0 <= x < |a + b| ensures (a + b)[x] != '\\' {
        if x >= |a| { assert (a + b)[x] == b[x - |a|]; }
      }
    }
    if NoBackslash(a + b) {
      forall x | 0 <= x < |a| ensures a[x] != '\\' {
        assert (a + b)[x] == a[x];
      }
      forall x | 0 <= x < |b| ensures b[x] != '\\' {
        assert (a + b)[|a| + x] == b[x];
      }
    }
  }

  /** The one-character escapes: `\a \b \f \n \r \t \v \\`. */
  function SimpleEscape(c: char): Option<char> {
    if c == 'a' then Some(7 as char)
    else if c == 'b' then Some(8 as char)
    else if c == 'f' then Some(12 as char)
    else if c == 'n' then Some('\n')
    else if c == 'r' then Some('\r')
    else if c == 't' then Some('\t')
    else if c == 'v' then Some(11 as char)
    else if c == '\\' then Some('\\')
    else None
  }

  /** Where a `\0` escape ends: it takes up to two more octal digits. */
  function ZeroEscapeEnd(t: string): (n: nat)
    requires |t| >= 2
    ensures 2 <= n <= 4 && n <= |t|
    ensures forall x :: 2 <= x < n ==> IsOctal(t[x])
  {
    if |t| > 2 && IsOctal(t[2]) then (if |t| > 3 && IsOctal(t[3]) then 4 else 3) else 2
  }

  /** The value of a run of octal digits. */
  function OctalValue(ds: string): (v: nat)
    requires forall x :: 0 <= x < |ds| ==> IsOctal(ds[x])
    ensures v < OctalBound(|ds|)
    decreases |ds|
  {
    if ds == [] then 0
    else
      var init, d := ds[..|ds| - 1], ds[|ds| - 1];
      assert IsOctal(d) && forall x :: 0 <= x < |init| ==> init[x] == ds[x];
      var w := OctalValue(init);
      assert 8 * w <= 8 * OctalBound(|init|) - 8;
      8 * w + (d as int - '0' as int)
  }

  /** `8` to the power `n`. */
  function OctalBound(n: nat): nat {
    if n == 0 then 1 else 8 * OctalBound(n - 1)
  }

  /** Where a `\g<...>` reference to the whole match ends: the name up to
      the first `>` must be a non-empty run of ASCII zeros; anything else
      (no `<`, no `>`, an empty name, another group, a named group) raises. */
  function GroupZeroEnd(t: string): (r: Option<nat>)
    requires |t| >= 2 && t[1] == 'g'
    ensures r.Some? ==> 5 <= r.value <= |t|
  {
    if |t| < 3 || t[2] != '<' then None
    else match FindChar(t, '>', 3)
      case None => None
      case Some(j) =>
        if j > 3 && forall x :: 3 <= x < j ==> t[x] == '0' then Some(j + 1) else None
  }

  function Then(head: seq<Piece>, rest: Option<seq<Piece>>): Option<seq<Piece>> {
    if rest.Some? then Some(head + rest.value) else None
  }

  /** Python's template compiler for a pattern without groups: `None` when
      it raises `re.error`. */
  function Compile(t: string): Option<seq<Piece>>
    decreases |t|
  {
    if t == [] then Some([])
    else if t[0] != '\\' then Then([Lit(t[0])], Compile(t[1..]))
    else if |t| == 1 then None                        // a trailing backslash
    else
      var c := t[1];
      if c == 'g' then
        match GroupZeroEnd(t)
        case None => None
        case Some(n) => Then([WholeMatch], Compile(t[n..]))
      else if c == '0' then
        var n := ZeroEscapeEnd(t);
        assert OctalBound(3) == 512;
        Then([Lit(OctalValue(t[1..n]) as char)], Compile(t[n..]))
      else if IsDigit(c) then
        // three octal digits up to \377 are a character; anything else
        // is a group reference, and the pattern has no groups
        if |t| >= 4 && IsOctal(c) && IsOctal(t[2]) && IsOctal(t[3]) && OctalValue(t[1..4]) <= 255 then
          Then([Lit(OctalValue(t[1..4]) as char)], Compile(t[4..]))
        else None
      else if SimpleEscape(c).Some? then Then([Lit(SimpleEscape(c).value)], Compile(t[2..]))
      else if IsLetter(c) then None                   // an unknown letter escape
      else Then([Lit('\\'), Lit(c)], Compile(t[2..])) // other escapes are kept as written
  }

  /** The text a compiled template inserts for a match `m`. */
  function Expand(pieces: seq<Piece>, m: string): string
    decreases |pieces|
  {
    if pieces == [] then []
    else (if pieces[0].Lit? then [pieces[0].c] else m) + Expand(pieces[1..], m)
  }

  /** A template without a backslash compiles to its own characters and
      inserts itself, whatever it replaces. */
  lemma {:induction false} LiteralTemplate(t: string, m: string)
    ensures NoBackslash(t) ==> Compile(t).Some? && Expand(Compile(t).value, m) == t
    decreases |t|
  {
    if t != [] && NoBackslash(t) {
      LiteralTemplate(t[1..], m);
      var rest := Compile(t[1..]).value;
      assert Compile(t).value == [Lit(t[0])] + rest;
      assert ([Lit(t[0])] + rest)[1..] == rest;
    }
  }

  /** A template compiles exactly when its two halves do, split at a
      character that is not part of an escape. */
  lemma {:induction false} CompileConcat(a: string, b: string)
    requires NoBackslash(a)
    ensures Compile(a + b).Some? <==> Compile(b).Some?
    ensures Compile(a + b).Some? ==> forall m :: Expand(Compile(a + b).value, m) == a + Expand(Compile(b).value, m)
    decreases |a|
  {
    if a != [] {
      assert (a + b)[1..] == a[1..] + b;
      CompileConcat(a[1..], b);
      if Compile(a + b).Some? {
        var rest := Compile(a[1..] + b).value;
        forall m ensures Expand(Compile(a + b).value, m) == a + Expand(Compile(b).value, m) {
          assert Compile(a + b).value == [Lit(a[0])] + rest;
          assert ([Lit(a[0])] + rest)[1..] == rest;
          assert a == [a[0]] + a[1..];
        }
      }
    } else {
      assert a + b == b;
    }
  }

  /** `\n` in a template inserts a newline. */
  lemma NewlineEscape()
    ensures Compile("a\\nb") == Some([Lit('a'), Lit('\n'), Lit('b')])
  {
    var t := "a\\nb";
    var b := "b";
    assert b[1..] == [] && Compile(b[1..]) == Some([]);
    assert [Lit('b')] + [] == [Lit('b')];
    assert Compile(b) == Some([Lit('b')]);
    var nb := t[1..];
    assert nb[0] == '\\' && nb[1] == 'n' && |nb| == 3 && nb[2..] == b;
    assert SimpleEscape('n') == Some('\n');
    assert [Lit('\n')] + [Lit('b')] == [Lit('\n'), Lit('b')];
    assert Compile(nb) == Some([Lit('\n'), Lit('b')]);
    assert [Lit('a')] + [Lit('\n'), Lit('b')] == [Lit('a'), Lit('\n'), Lit('b')];
  }

  /** An unknown letter escape, such as the `\d` of a Windows path, makes
      the whole template raise, whatever text surrounds it. */
  lemma {:induction false} UnknownEscapeRaises(a: string, c: char, b: string)
    requires NoBackslash(a)
    requires IsLetter(c) && c != 'g' && SimpleEscape(c).None?
    ensures Compile(a + ['\\', c] + b).None?
  {
    var e := ['\\', c] + b;
    assert a + ['\\', c] + b == a + e;
    CompileConcat(a, e);
    assert e[0] == '\\' && e[1] == c;
  }

  lemma WindowsPathRaises()
    ensures Compile("<p>C:\\data</p>").None?
  {
    UnknownEscapeRaises("<p>C:", 'd', "ata</p>");
    assert "<p>C:" + ['\\', 'd'] + "ata</p>" == "<p>C:\\data</p>";
  }

  /** `\g<0>` inserts the match itself. */
  lemma WholeMatchReference()
    ensures Compile("\\g<0>").Some? && Expand(Compile("\\g<0>").value, "old") == "old"
  {
    var w := "\\g<0>";
    assert FindChar(w, '>', 3) == Some(4) by {
      assert w[3] != '>' && w[4] == '>';
    }
    assert w[5..] == [];
  }
}
