/**
 * `likify` (main.py): turns a search string into a pattern for SQL
 * `name LIKE ? ESCAPE '!'`. The escape character `!` is doubled first, then
 * the wildcards `%` and `_` are each prefixed with `!`, and the result is
 * wrapped in `%...%` so that it matches any name containing the string.
 */
module LikeEscape {
  import opened Optional

  predicate IsSpecial(c: char) {
    c == '!' || c == '%' || c == '_'
  }

  /** Python's `s.replace(c, rep)` for a one-character pattern. */
  function ReplaceChar(s: string, c: char, rep: string): string {
    if s == [] then [] else (if s[0] == c then rep else [s[0]]) + ReplaceChar(s[1..], c, rep)
  }

  /** The pattern sent to the database. */
  function Likify(input: string): string {
    "%" + ReplaceChar(ReplaceChar(ReplaceChar(input, '!', "!!"), '%', "!%"), '_', "!_") + "%"
  }

  /** Reference escaper: each special character, and only those, is preceded by `!`. */
  function Escape(s: string): string {
    if s == [] then [] else (if IsSpecial(s[0]) then ['!', s[0]] else [s[0]]) + Escape(s[1..])
  }

  /** The inverse of escaping, failing on a dangling `!`, on `!` before an ordinary
      character, and on an unescaped wildcard. */
  function Unescape(m: string): Option<string>
    decreases |m|
  {
    if m == [] then Some([])
    else if m[0] == '!' then
      if |m| >= 2 && IsSpecial(m[1]) then
        match Unescape(m[2..])
        case Some(rest) => Some([m[1]] + rest)
        case None => None
      else None
    else if IsSpecial(m[0]) then None
    else
      match Unescape(m[1..])
      case Some(rest) => Some([m[0]] + rest)
      case None => None
  }

  function CountSpecial(s: string): nat {
    if s == [] then 0 else (if IsSpecial(s[0]) then 1 else 0) + CountSpecial(s[1..])
  }

  lemma {:induction false} ReplaceCharAppend(a: string, b: string, c: char, rep: string)
    ensures ReplaceChar(a + b, c, rep) == ReplaceChar(a, c, rep) + ReplaceChar(b, c, rep)
    decreases |a|
  {
    if a == [] {
      assert a + b == b;
    } else {
      assert (a + b)[1..] == a[1..] + b;
      ReplaceCharAppend(a[1..], b, c, rep);
    }
  }

  /** The three chained replacements escape exactly like the reference escaper:
      since `!` is doubled first, the `!` added before `%` and `_` is not doubled again. */
  lemma {:induction false} ChainedReplaceIsEscape(s: string)
    ensures ReplaceChar(ReplaceChar(ReplaceChar(s, '!', "!!"), '%', "!%"), '_', "!_") == Escape(s)
    decreases |s|
  {
    if s != [] {
      var head, tail := s[..1], s[1..];
      assert s == head + tail;
      ReplaceCharAppend(head, tail, '!', "!!");
      var a1, b1 := ReplaceChar(head, '!', "!!"), ReplaceChar(tail, '!', "!!");
      ReplaceCharAppend(a1, b1, '%', "!%");
      var a2, b2 := ReplaceChar(a1, '%', "!%"), ReplaceChar(b1, '%', "!%");
      ReplaceCharAppend(a2, b2, '_', "!_");
      ChainedReplaceIsEscape(tail);
      assert ReplaceChar(a2, '_', "!_") == if IsSpecial(s[0]) then ['!', s[0]] else [s[0]];
    }
  }

  /** `likify(s)` is `%`, the escaped string, then `%`; its length grows by two plus one
      per special character. */
  lemma LikifyShape(s: string)
    ensures Likify(s) == "%" + Escape(s) + "%"
    ensures |Likify(s)| == |s| + 2 + CountSpecial(s)
  {
    ChainedReplaceIsEscape(s);
    EscapeLength(s);
  }

  lemma {:induction false} EscapeLength(s: string)
    ensures |Escape(s)| == |s| + CountSpecial(s)
  {
    if s != [] {
      EscapeLength(s[1..]);
    }
  }

  /** Un-escaping the middle of the pattern gives back exactly the search string. */
  lemma {:induction false} UnescapeEscape(s: string)
    ensures Unescape(Escape(s)) == Some(s)
  {
    if s != [] {
      UnescapeEscape(s[1..]);
      var e := Escape(s);
      if IsSpecial(s[0]) {
        assert e[2..] == Escape(s[1..]);
      } else {
        assert e[0] == s[0] && e[1..] == Escape(s[1..]);
        assert Unescape(e) == Some([s[0]] + s[1..]);
      }
      assert [s[0]] + s[1..] == s;
    }
  }

  /** Conversely, every pattern middle in which each special character is escaped is the
      escape of exactly one string, so distinct search strings give distinct patterns. */
  lemma {:induction false} EscapeUnescape(m: string, s: string)
    requires Unescape(m) == Some(s)
    ensures Escape(s) == m
    decreases |m|
  {
    if m != [] {
      if m[0] == '!' {
        EscapeUnescape(m[2..], s[1..]);
        assert m == m[..2] + m[2..];
      } else {
        EscapeUnescape(m[1..], s[1..]);
        assert m == [m[0]] + m[1..];
      }
    }
  }
}
