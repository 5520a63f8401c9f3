/**
 * The string operations the shell borrows from Rust's `str`: `trim_start`,
 * `trim_end`, `split_once(' ')`, `split(':')` and `split_whitespace`.
 * Whitespace is Rust's `char::is_whitespace` restricted to ASCII.
 */
module Text {
  import opened Wrappers

  predicate IsSpace(c: char)
  {
    c == ' ' || c == '\t' || c == '\n' || c == '\r' || c == '\U{000B}' || c == '\U{000C}'
  }

  /** No character of `s` is whitespace. */
  predicate NoSpace(s: string)
  {
    forall i :: 0 <= i < |s| ==> !IsSpace(s[i])
  }

  /** A token of `split_whitespace`: non-empty and free of whitespace. */
  predicate IsWord(w: string)
  {
    |w| > 0 && NoSpace(w)
  }

  /** `str::trim_start`: drops the leading whitespace and nothing else. */
  function TrimStart(s: string): (r: string)
    ensures |r| <= |s|
    ensures forall i :: 0 <= i < |s| - |r| ==> IsSpace(s[i])
    ensures r == [] || !IsSpace(r[0])
  {
    if |s| > 0 && IsSpace(s[0]) then TrimStart(s[1..]) else s
  }

  /** What `trim_start` keeps is the input's own tail. */
  lemma {:induction false} TrimStartSuffix(s: string)
    ensures TrimStart(s) == s[|s| - |TrimStart(s)|..]
  {
    if |s| > 0 && IsSpace(s[0]) {
      TrimStartSuffix(s[1..]);
    }
  }

  /** `str::trim_end`: drops the trailing whitespace and nothing else. */
  function TrimEnd(s: string): (r: string)
    ensures |r| <= |s|
    ensures forall i :: |r| <= i < |s| ==> IsSpace(s[i])
    ensures r == [] || !IsSpace(r[|r| - 1])
  {
    if |s| > 0 && IsSpace(s[|s| - 1]) then TrimEnd(s[..|s| - 1]) else s
  }

  /** What `trim_end` keeps is the input's own head. */
  lemma {:induction false} TrimEndPrefix(s: string)
    ensures TrimEnd(s) == s[..|TrimEnd(s)|]
  {
    if |s| > 0 && IsSpace(s[|s| - 1]) {
      TrimEndPrefix(s[..|s| - 1]);
    }
  }

  /** A string that already ends in a non-space character is its own `trim_end`. */
  lemma TrimEndFixed(s: string)
    requires s == [] || !IsSpace(s[|s| - 1])
    ensures TrimEnd(s) == s
  {
  }

  /** Appending whitespace to a line does not change its `trim_end`. */
  lemma {:induction false} TrimEndSuffix(s: string, w: string)
    requires forall i :: 0 <= i < |w| ==> IsSpace(w[i])
    ensures TrimEnd(s + w) == TrimEnd(s)
  {
    if w != [] {
      var w' := w[..|w| - 1];
      assert (s + w)[|s + w| - 1] == w[|w| - 1];
      assert (s + w)[..|s + w| - 1] == s + w';
      TrimEndSuffix(s, w');
    } else {
      assert s + w == s;
    }
  }

  /** Leading whitespace is exactly what `trim_start` removes. */
  lemma {:induction false} TrimStartOfSpaces(lead: string, t: string)
    requires forall i :: 0 <= i < |lead| ==> IsSpace(lead[i])
    requires t == [] || !IsSpace(t[0])
    ensures TrimStart(lead + t) == t
  {
    if lead == [] {
      assert lead + t == t;
    } else {
      assert (lead + t)[1..] == lead[1..] + t;
      TrimStartOfSpaces(lead[1..], t);
    }
  }

  /**
   * `str::split_once(sep)`: splits at the FIRST occurrence of `sep`, giving the
   * part before it (which holds no `sep`) and everything after it.
   */
  function SplitOnce(s: string, sep: char): Option<(string, string)>
  {
    if |s| == 0 then None
    else if s[0] == sep then Some(([], s[1..]))
    else
      match SplitOnce(s[1..], sep)
      case None => None
      case Some((a, b)) => Some(([s[0]] + a, b))
  }

  /** No split exactly when `sep` is absent; otherwise head, `sep` and rest rebuild `s`. */
  lemma {:induction false} SplitOnceSpec(s: string, sep: char)
    ensures SplitOnce(s, sep).None? <==> sep !in s
    ensures var r := SplitOnce(s, sep);
            r.Some? ==> sep !in r.value.0 && s == r.value.0 + [sep] + r.value.1
  {
    if |s| > 0 && s[0] != sep {
      SplitOnceSpec(s[1..], sep);
      assert s == [s[0]] + s[1..];
    }
  }

  /** The split point is unique: a head free of `sep` is exactly what `SplitOnce` returns. */
  lemma {:induction false} SplitOnceAt(a: string, sep: char, b: string)
    requires sep !in a
    ensures SplitOnce(a + [sep] + b, sep) == Some((a, b))
  {
    if a != [] {
      assert (a + [sep] + b)[1..] == a[1..] + [sep] + b;
      SplitOnceAt(a[1..], sep, b);
      assert [a[0]] + a[1..] == a;
    } else {
      assert a + [sep] + b == [sep] + b;
    }
  }

  /** `str::split(sep)`: every maximal `sep`-free piece, empty pieces included. */
  function Split(s: string, sep: char): (r: seq<string>)
    ensures |r| >= 1
    ensures forall k :: 0 <= k < |r| ==> sep !in r[k]
    decreases |s|
  {
    SplitOnceSpec(s, sep);
    match SplitOnce(s, sep)
    case None => [s]
    case Some((a, b)) => [a] + Split(b, sep)
  }

  /** The inverse of `Split`: the pieces glued back with `sep` between them. */
  function Join(parts: seq<string>, sep: char): string
  {
    if |parts| == 0 then []
    else if |parts| == 1 then parts[0]
    else parts[0] + [sep] + Join(parts[1..], sep)
  }

  lemma {:induction false} JoinSplit(s: string, sep: char)
    ensures Join(Split(s, sep), sep) == s
    decreases |s|
  {
    SplitOnceSpec(s, sep);
    match SplitOnce(s, sep)
    case None =>
    case Some((a, b)) =>
      JoinSplit(b, sep);
      assert Split(s, sep)[1..] == Split(b, sep);
  }

  lemma {:induction false} SplitJoin(parts: seq<string>, sep: char)
    requires |parts| >= 1
    requires forall k :: 0 <= k < |parts| ==> sep !in parts[k]
    ensures Split(Join(parts, sep), sep) == parts
  {
    if |parts| == 1 {
      SplitOnceSpec(parts[0], sep);
    } else {
      SplitOnceAt(parts[0], sep, Join(parts[1..], sep));
      SplitJoin(parts[1..], sep);
      assert [parts[0]] + parts[1..] == parts;
    }
  }

  /** The longest whitespace-free prefix of `s`. */
  function Word(s: string): (r: string)
    ensures |r| <= |s| && r == s[..|r|] && NoSpace(r)
    ensures |r| == |s| || IsSpace(s[|r|])
  {
    if |s| == 0 || IsSpace(s[0]) then []
    else
      var w := Word(s[1..]);
      assert s[..1 + |w|] == [s[0]] + w;
      [s[0]] + w
  }

  /**
   * `str::split_whitespace`: the maximal runs of non-whitespace characters,
   * in order.
   */
  function Tokens(s: string): (r: seq<string>)
    ensures forall k :: 0 <= k < |r| ==> IsWord(r[k])
    decreases |s|
  {
    var t := TrimStart(s);
    if t == [] then []
    else
      var w := Word(t);
      WordOfVisible(t);
      [w] + Tokens(t[|w|..])
  }

  /** A string starting with a visible character starts with a whole token. */
  lemma WordOfVisible(t: string)
    requires t != [] && !IsSpace(t[0])
    ensures IsWord(Word(t))
  {
  }

  /** The characters of `s` that are not whitespace, in order. */
  function Visible(s: string): string
  {
    if s == [] then []
    else if IsSpace(s[0]) then Visible(s[1..])
    else [s[0]] + Visible(s[1..])
  }

  /** Concatenation of a sequence of strings. */
  function Concat(ts: seq<string>): string
  {
    if ts == [] then [] else ts[0] + Concat(ts[1..])
  }

  lemma {:induction false} VisibleAppend(a: string, b: string)
    ensures Visible(a + b) == Visible(a) + Visible(b)
  {
    if a != [] {
      assert (a + b)[1..] == a[1..] + b;
      VisibleAppend(a[1..], b);
    } else {
      assert a + b == b;
    }
  }

  lemma {:induction false} VisibleOfNoSpace(s: string)
    requires NoSpace(s)
    ensures Visible(s) == s
  {
    if s != [] {
      VisibleOfNoSpace(s[1..]);
    }
  }

  lemma {:induction false} VisibleTrimStart(s: string)
    ensures Visible(TrimStart(s)) == Visible(s)
  {
    if |s| > 0 && IsSpace(s[0]) {
      VisibleTrimStart(s[1..]);
    }
  }

  lemma VisibleWord(t: string)
    ensures Visible(t) == Word(t) + Visible(t[|Word(t)|..])
  {
    var w := Word(t);
    assert t == w + t[|w|..];
    VisibleAppend(w, t[|w|..]);
    VisibleOfNoSpace(w);
  }

  /**
   * Tokenising loses only whitespace: the tokens, laid end to end, are the
   * input's visible characters in their original order.
   */
  lemma {:induction false} TokensKeepVisible(s: string)
    ensures Concat(Tokens(s)) == Visible(s)
    decreases |s|
  {
    var t := TrimStart(s);
    VisibleTrimStart(s);
    if t != [] {
      var w := Word(t);
      var rest := t[|w|..];
      assert Tokens(s) == [w] + Tokens(rest);
      VisibleWord(t);
      TokensKeepVisible(rest);
      assert ([w] + Tokens(rest))[1..] == Tokens(rest);
    }
  }

  /** A whitespace-free head followed by whitespace, or by nothing, is the first word. */
  lemma {:induction false} WordOfJoin(w: string, rest: string)
    requires NoSpace(w) && (rest == [] || IsSpace(rest[0]))
    ensures Word(w + rest) == w
  {
    if w != [] {
      assert (w + rest)[1..] == w[1..] + rest;
      WordOfJoin(w[1..], rest);
      assert [w[0]] + w[1..] == w;
    } else {
      assert w + rest == rest;
    }
  }

  lemma TokensOfWord(w: string)
    requires IsWord(w)
    ensures Tokens(w) == [w]
  {
    assert TrimStart(w) == w;
    WordOfJoin(w, []);
    assert w + [] == w;
    assert Tokens(w[|w|..]) == [];
  }

  /** Leading whitespace, of any kind and length, is skipped by `trim_start`. */
  lemma {:induction false} TrimStartSkip(sp: string, rest: string)
    requires forall i :: 0 <= i < |sp| ==> IsSpace(sp[i])
    ensures TrimStart(sp + rest) == TrimStart(rest)
  {
    if sp != [] {
      assert (sp + rest)[1..] == sp[1..] + rest;
      TrimStartSkip(sp[1..], rest);
    } else {
      assert sp + rest == rest;
    }
  }

  /** Any run of whitespace before the text yields no token of its own. */
  lemma TokensSkipSpace(sp: string, rest: string)
    requires forall i :: 0 <= i < |sp| ==> IsSpace(sp[i])
    ensures Tokens(sp + rest) == Tokens(rest)
  {
    TrimStartSkip(sp, rest);
  }

  /**
   * A word followed by a non-empty run of any whitespace is the first token,
   * and tokenising goes on after the run: tokens break at every run.
   */
  lemma TokensOfHead(w: string, sp: string, rest: string)
    requires IsWord(w)
    requires |sp| > 0 && forall i :: 0 <= i < |sp| ==> IsSpace(sp[i])
    ensures Tokens(w + sp + rest) == [w] + Tokens(rest)
  {
    var s := w + sp + rest;
    assert s == w + (sp + rest);
    assert TrimStart(s) == s by { assert s[0] == w[0]; }
    assert (sp + rest)[0] == sp[0];
    WordOfJoin(w, sp + rest);
    assert s[|w|..] == sp + rest;
    TokensSkipSpace(sp, rest);
  }

  /**
   * Tokenising undoes joining with single spaces, so tokens keep their order
   * and their contents.
   */
  lemma {:induction false} TokensOfJoin(ts: seq<string>)
    requires forall k :: 0 <= k < |ts| ==> IsWord(ts[k])
    ensures Tokens(Join(ts, ' ')) == ts
  {
    if |ts| == 0 {
      assert Tokens([]) == [];
    } else if |ts| == 1 {
      TokensOfWord(ts[0]);
    } else {
      var tail := ts[1..];
      assert forall k :: 0 <= k < |tail| ==> tail[k] == ts[k + 1];
      TokensOfJoinStep(ts);
      TokensOfJoin(tail);
      assert [ts[0]] + tail == ts;
    }
  }

  lemma TokensOfJoinStep(ts: seq<string>)
    requires |ts| > 1 && IsWord(ts[0])
    ensures Tokens(Join(ts, ' ')) == [ts[0]] + Tokens(Join(ts[1..], ' '))
  {
    var rest := Join(ts[1..], ' ');
    assert Join(ts, ' ') == ts[0] + [' '] + rest;
    TokensOfHead(ts[0], [' '], rest);
  }
}
