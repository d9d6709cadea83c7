/** The address of the remote rendering service that `generate_image` asks
    when local rendering fails (main.py:221-223). */
module RemoteUrl {

  /** `f"https://latex.codecogs.com/png.image?\\dpi{{{dpi}}}"` with the
      `dpi = 600` of main.py:221: one backslash, then `dpi{600}`. */
  const SERVICE_PREFIX: string := @"https://latex.codecogs.com/png.image?\dpi{600}"

  /** What `formula.replace(' ', '%20')` writes for one character. */
  function EscapeChar(c: char): string
  {
    if c == ' ' then "%20" else [c]
  }

  /** `formula.replace(' ', '%20')` (main.py:222): every space becomes the
      three characters `%20`, so no space is left and nothing is dropped
      (EncodeSpacesLength gives the exact growth). Only the space is escaped,
      which is a small part of the percent-encoding of section 2.1 of
      RFC 3986. */
  function EncodeSpaces(s: string): (r: string)
    ensures ' ' !in r
    ensures |r| >= |s|
  {
    if s == [] then [] else EscapeChar(s[0]) + EncodeSpaces(s[1..])
  }

  /** The escaped text is two characters longer per space. */
  lemma {:induction false} EncodeSpacesLength(s: string)
    ensures |EncodeSpaces(s)| == |s| + 2 * multiset(s)[' ']
  {
    if s != [] {
      assert s == [s[0]] + s[1..];
      EncodeSpacesLength(s[1..]);
    }
  }

  /** The URL requested by the fallback branch (main.py:223): the fixed
      service prefix followed by the escaped formula, and nothing else. */
  function FallbackUrl(formula: string): (url: string)
    ensures |url| == |SERVICE_PREFIX| + |EncodeSpaces(formula)|
    ensures url[..|SERVICE_PREFIX|] == SERVICE_PREFIX
    ensures url[|SERVICE_PREFIX|..] == EncodeSpaces(formula)
  {
    SERVICE_PREFIX + EncodeSpaces(formula)
  }

  /** True when `s` already holds the three characters `%20` somewhere. */
  predicate HasEscape(s: string)
  {
    exists i :: 0 <= i < |s| - 2 && s[i] == '%' && s[i + 1] == '2' && s[i + 2] == '0'
  }

  /** Reference decoding: turns each `%20`, read left to right, back into a
      space and keeps every other character. It is the decoding the lemmas
      below compare the escaping with, not code of the source. */
  function Unescape(t: string): (r: string)
    ensures |r| <= |t|
    decreases |t|
  {
    if |t| >= 3 && t[0] == '%' && t[1] == '2' && t[2] == '0' then " " + Unescape(t[3..])
    else if t == [] then []
    else [t[0]] + Unescape(t[1..])
  }

  /** Escaping distributes over concatenation: each character is escaped on
      its own, independently of its neighbours. */
  lemma {:induction false} EncodeSpacesAppend(a: string, b: string)
    ensures EncodeSpaces(a + b) == EncodeSpaces(a) + EncodeSpaces(b)
  {
    if a == [] {
      assert a + b == b;
    } else {
      assert (a + b)[0] == a[0];
      assert (a + b)[1..] == a[1..] + b;
      EncodeSpacesAppend(a[1..], b);
    }
  }

  /** How often `c` occurs in the escape of one character `d`. */
  lemma EscapeCharCount(d: char, c: char)
    ensures multiset(EscapeChar(d))[c] ==
      if d == ' ' then (if c == '%' || c == '2' || c == '0' then 1 else 0)
      else (if c == d then 1 else 0)
  {
    if d == ' ' {
      assert EscapeChar(d) == ['%'] + ['2'] + ['0'];
    }
  }

  /** Exactly what each character turns into: a space disappears, `%`, `2`
      and `0` gain one occurrence per space, and every other character
      (`\`, `{`, `}`, `^`, `+`, `&`, ...) occurs as often as before. */
  lemma {:induction false} EncodeSpacesCounts(s: string, c: char)
    ensures multiset(EncodeSpaces(s))[c] ==
      if c == ' ' then 0
      else if c == '%' || c == '2' || c == '0' then multiset(s)[c] + multiset(s)[' ']
      else multiset(s)[c]
  {
    if s != [] {
      EncodeSpacesCounts(s[1..], c);
      EscapeCharCount(s[0], c);
      assert s == [s[0]] + s[1..];
      assert multiset(s)[c] == multiset([s[0]])[c] + multiset(s[1..])[c];
      assert multiset(s)[' '] == multiset([s[0]])[' '] + multiset(s[1..])[' '];
      var e := EscapeChar(s[0]);
      var rest := EncodeSpaces(s[1..]);
      assert EncodeSpaces(s) == e + rest;
      assert multiset(e + rest)[c] == multiset(e)[c] + multiset(rest)[c];
    }
  }

  /** The escaping leaves a string unchanged exactly when it has no space. */
  lemma {:induction false} EncodeSpacesFixedPoints(s: string)
    ensures EncodeSpaces(s) == s <==> ' ' !in s
  {
    if ' ' !in s && s != [] {
      assert s[0] != ' ';
      assert ' ' !in s[1..] by {
        forall i | 0 <= i < |s[1..]| ensures s[1..][i] != ' ' {
          assert s[1..][i] == s[i + 1];
        }
      }
      EncodeSpacesFixedPoints(s[1..]);
      assert s == [s[0]] + s[1..];
    }
  }

  /** Encoding an already-encoded formula changes nothing. */
  lemma EncodeSpacesIdempotent(s: string)
    ensures EncodeSpaces(EncodeSpaces(s)) == EncodeSpaces(s)
  {
    EncodeSpacesFixedPoints(EncodeSpaces(s));
  }

  /** The first two characters of an encoding, read off the first two
      characters of its input. */
  lemma EncodeSpacesHead(s: string)
    requires s != []
    ensures |EncodeSpaces(s)| >= 1
    ensures EncodeSpaces(s)[0] == if s[0] == ' ' then '%' else s[0]
    ensures s[0] != ' ' && |s| >= 2 ==>
      |EncodeSpaces(s)| >= 2 && EncodeSpaces(s)[1] == if s[1] == ' ' then '%' else s[1]
  {
    if s[0] != ' ' && |s| >= 2 {
      assert EncodeSpaces(s[1..])[0] == if s[1] == ' ' then '%' else s[1] by {
        assert EncodeSpaces(s[1..]) == EscapeChar(s[1]) + EncodeSpaces(s[2..]);
      }
    }
  }

  /** A character other than an escaped space is decoded as itself. */
  lemma UnescapeCons(c: char, t: string)
    requires !(c == '%' && |t| >= 2 && t[0] == '2' && t[1] == '0')
    ensures Unescape([c] + t) == [c] + Unescape(t)
  {
    assert ([c] + t)[1..] == t;
  }

  /** An escaped space is decoded as one space. */
  lemma UnescapeSpace(t: string)
    ensures Unescape("%20" + t) == " " + Unescape(t)
  {
    assert ("%20" + t)[3..] == t;
  }

  /** Dropping the first character cannot create a `%20`. */
  lemma HasEscapeTail(s: string)
    requires s != [] && !HasEscape(s)
    ensures !HasEscape(s[1..])
  {
  }

  /** Escaping never glues a `%` of the input to a following `20`, unless
      the input already held `%20`. */
  lemma NoEscapeAfterPercent(s: string)
    requires s != [] && s[0] == '%' && !HasEscape(s)
    ensures var t := EncodeSpaces(s[1..]); !(|t| >= 2 && t[0] == '2' && t[1] == '0')
  {
    if |s| > 1 {
      EncodeSpacesHead(s[1..]);
    }
  }

  /** Round trip: decoding the escaped formula gives the formula back, as
      long as the formula did not already contain `%20`. */
  lemma {:induction false} UnescapeEncodeSpaces(s: string)
    requires !HasEscape(s)
    ensures Unescape(EncodeSpaces(s)) == s
  {
    if s != [] {
      var t := EncodeSpaces(s[1..]);
      HasEscapeTail(s);
      UnescapeEncodeSpaces(s[1..]);
      assert s == [s[0]] + s[1..];
      if s[0] == ' ' {
        assert EncodeSpaces(s) == "%20" + t;
        UnescapeSpace(t);
      } else {
        assert EncodeSpaces(s) == [s[0]] + t;
        if s[0] == '%' {
          NoEscapeAfterPercent(s);
        }
        UnescapeCons(s[0], t);
      }
    }
  }

  /** Escaping a string that starts with `c`. */
  lemma EncodeSpacesCons(c: char, s: string)
    ensures EncodeSpaces([c] + s) == EscapeChar(c) + EncodeSpaces(s)
  {
    assert ([c] + s)[1..] == s;
  }

  /** Three characters none of which is a space are kept as they are. */
  lemma EncodeSpacesKeepsTriple(x: char, y: char, z: char)
    requires x != ' ' && y != ' ' && z != ' '
    ensures EncodeSpaces([x, y, z]) == [x, y, z]
  {
    EncodeSpacesCons(z, []);
    EncodeSpacesCons(y, [z]);
    assert [y, z] == [y] + [z];
    EncodeSpacesCons(x, [y, z]);
    assert [x, y, z] == [x] + [y, z];
  }

  /** A space between two parts of a formula is escaped on its own. */
  lemma EncodeSpacesAroundSpace(a: string, b: string)
    ensures EncodeSpaces(a + " " + b) == EncodeSpaces(a) + "%20" + EncodeSpaces(b)
  {
    EncodeSpacesAppend(a + " ", b);
    EncodeSpacesAppend(a, " ");
    EncodeSpacesCons(' ', []);
    assert " " == [' '] + [];
  }

  /** The round trip needs its precondition: a formula holding a literal
      `%20` is escaped exactly like the same formula with a space there, and
      decoding it yields the space, not the `%20`. */
  lemma EncodingIsNotInjective(a: string, b: string)
    ensures EncodeSpaces(a + " " + b) == EncodeSpaces(a + "%20" + b)
    ensures Unescape(EncodeSpaces("%20")) == " "
  {
    EncodeSpacesAroundSpace(a, b);
    EncodeSpacesAppend(a + "%20", b);
    EncodeSpacesAppend(a, "%20");
    EncodeSpacesKeepsTriple('%', '2', '0');
    assert "%20" == ['%', '2', '0'];
    UnescapeSpace([]);
    assert "%20" + [] == "%20";
  }

  /** The string handed to `requests.get` keeps the whole formula: the part
      after the prefix decodes back to it when it held no literal `%20`.
      This is about that string only; `requests` quotes the URL again
      before sending it and cuts off anything after a `#`, so what the
      service receives is not modelled. */
  lemma FallbackUrlRecoversFormula(formula: string)
    requires !HasEscape(formula)
    ensures Unescape(FallbackUrl(formula)[|SERVICE_PREFIX|..]) == formula
  {
    UnescapeEncodeSpaces(formula);
  }

  /** Whatever comes before it, a space is escaped in place between the
      escaped text on either side. */
  lemma PrefixedEscapesSpace(prefix: string, a: string, b: string)
    ensures prefix + EncodeSpaces(a + " " + b) == prefix + EncodeSpaces(a) + "%20" + EncodeSpaces(b)
  {
    EncodeSpacesAroundSpace(a, b);
    var ea, eb := EncodeSpaces(a), EncodeSpaces(b);
    assert prefix + (ea + "%20" + eb) == prefix + ea + "%20" + eb;
  }

  /** A space in the formula reaches the service as `%20`. */
  lemma FallbackUrlEscapesSpace(a: string, b: string)
    ensures FallbackUrl(a + " " + b) == SERVICE_PREFIX + EncodeSpaces(a) + "%20" + EncodeSpaces(b)
  {
    PrefixedEscapesSpace(SERVICE_PREFIX, a, b);
  }
}
