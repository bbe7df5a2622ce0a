/**
 * What `' '.join(s.split())` guarantees: its result has no leading or
 * trailing whitespace, no whitespace other than single ' ' characters, and
 * applying it again changes nothing.
 */
module Whitespace {
  import opened PyStr

  /** Every whitespace character is a ' ' that is not followed by whitespace. */
  predicate SingleSpaced(s: string) {
    forall i :: 0 <= i < |s| && IsSpace(s[i]) ==> s[i] == ' ' && (i + 1 < |s| ==> !IsSpace(s[i + 1]))
  }

  /** The shape of a normalised string: single-spaced and not starting or
      ending with whitespace. */
  predicate Normal(s: string) {
    SingleSpaced(s) && (s != [] ==> !IsSpace(s[0]) && !IsSpace(s[|s| - 1]))
  }

  lemma {:induction false} WordOfPrefix(w: string, t: string)
    requires forall i :: 0 <= i < |w| ==> !IsSpace(w[i])
    requires t == [] || IsSpace(t[0])
    ensures Word(w + t) == w
  {
    if w != [] {
      assert (w + t)[1..] == w[1..] + t;
      WordOfPrefix(w[1..], t);
    }
  }

  /** Nothing but whitespace. */
  predicate AllSpace(g: string) {
    forall i :: 0 <= i < |g| ==> IsSpace(g[i])
  }

  /** `split` of a single word is that word. */
  lemma SplitWord(w: string)
    requires IsWord(w)
    ensures Split(w) == [w]
  {
    WordOfPrefix(w, []);
    assert w + [] == w;
    assert w[|w|..] == [];
  }

  /** `split` of whitespace alone yields no pieces. */
  lemma {:induction false} SplitSpace(g: string)
    requires AllSpace(g)
    ensures Split(g) == []
  {
    if g != [] {
      SplitSpace(g[1..]);
    }
  }

  /** Leading whitespace does not change what `split` yields. */
  lemma {:induction false} SplitSkipsSpace(g: string, b: string)
    requires AllSpace(g)
    ensures Split(g + b) == Split(b)
  {
    if g != [] {
      assert (g + b)[0] == g[0];
      assert (g + b)[1..] == g[1..] + b;
      SplitSkipsSpace(g[1..], b);
    } else {
      assert g + b == b;
    }
  }

  /** The first word of `s` is also the first word of `s + t` when that word
      ends inside `s` or `t` starts with whitespace. */
  lemma {:induction false} WordExtend(s: string, t: string)
    requires |Word(s)| < |s| || (t != [] && IsSpace(t[0]))
    ensures Word(s + t) == Word(s)
  {
    if s == [] {
    } else if IsSpace(s[0]) {
      assert (s + t)[0] == s[0];
    } else {
      assert (s + t)[0] == s[0];
      assert (s + t)[1..] == s[1..] + t;
      WordExtend(s[1..], t);
    }
  }

  /** A leading space of `a` is skipped with or without the gap and `b`. */
  lemma GapAfterSpace(a: string, g: string, b: string)
    requires a != [] && IsSpace(a[0])
    ensures Split(a + g + b) == Split(a[1..] + g + b)
    ensures Split(a) == Split(a[1..])
  {
    var s := a + g + b;
    assert s[0] == a[0];
    assert s[1..] == a[1..] + g + b;
  }

  /** A leading word of `a` is split off with or without the gap and `b`. */
  lemma GapAfterWord(a: string, g: string, b: string)
    requires a != [] && !IsSpace(a[0]) && g != [] && IsSpace(g[0])
    ensures var w := Word(a);
      && w != []
      && Split(a + g + b) == [w] + Split(a[|w|..] + g + b)
      && Split(a) == [w] + Split(a[|w|..])
  {
    var s := a + g + b;
    var w := Word(a);
    assert w[0] == a[0];
    assert Word(s) == w by {
      assert s == a + (g + b);
      WordExtend(a, g + b);
    }
    assert s[0] == a[0];
    assert s[|w|..] == a[|w|..] + g + b;
  }

  /** A gap of whitespace separates the pieces: `split` of `a`, a non-empty
      gap and `b` is the pieces of `a` followed by those of `b`. Together
      with `SplitWord` and `SplitSpace` this fixes `split` as the maximal
      whitespace-free runs of its input, in order. */
  lemma {:induction false} SplitGap(a: string, g: string, b: string)
    requires AllSpace(g) && g != []
    ensures Split(a + g + b) == Split(a) + Split(b)
    decreases |a|
  {
    if a == [] {
      assert a + g + b == g + b;
      SplitSkipsSpace(g, b);
    } else if IsSpace(a[0]) {
      GapAfterSpace(a, g, b);
      SplitGap(a[1..], g, b);
    } else {
      GapAfterWord(a, g, b);
      SplitGap(a[|Word(a)|..], g, b);
    }
  }

  /** `' '.join` of two non-empty lists of pieces puts one space between them. */
  lemma {:induction false} JoinAppend(xs: seq<string>, ys: seq<string>)
    requires xs != [] && ys != []
    ensures Join(" ", xs + ys) == Join(" ", xs) + " " + Join(" ", ys)
    decreases |xs|
  {
    if |xs| == 1 {
      assert xs + ys == [xs[0]] + ys;
      JoinCons(xs[0], ys);
    } else {
      assert xs + ys == [xs[0]] + (xs[1..] + ys);
      JoinCons(xs[0], xs[1..] + ys);
      JoinAppend(xs[1..], ys);
      assert xs == [xs[0]] + xs[1..];
      JoinCons(xs[0], xs[1..]);
    }
  }

  /** Normalisation keeps the words on both sides of a whitespace gap and
      puts exactly one space between them. */
  lemma NormalizeGap(a: string, g: string, b: string)
    requires AllSpace(g) && g != [] && Split(a) != [] && Split(b) != []
    ensures Normalize(a + g + b) == Normalize(a) + " " + Normalize(b)
  {
    SplitGap(a, g, b);
    JoinAppend(Split(a), Split(b));
  }

  /** Joining words with single spaces gives a normal string. */
  lemma {:induction false} JoinIsNormal(ws: seq<string>)
    requires forall k :: 0 <= k < |ws| ==> IsWord(ws[k])
    ensures Normal(Join(" ", ws))
    ensures ws != [] ==> Join(" ", ws) != []
  {
    if |ws| >= 2 {
      var a, b := ws[0], Join(" ", ws[1..]);
      JoinIsNormal(ws[1..]);
      var r := a + " " + b;
      assert Join(" ", ws) == r;
      assert forall i :: 0 <= i < |a| ==> r[i] == a[i];
      forall i | 0 <= i < |r| && IsSpace(r[i])
        ensures r[i] == ' ' && (i + 1 < |r| ==> !IsSpace(r[i + 1]))
      {
        if i == |a| {
          assert r[i + 1] == b[0];
        } else if i > |a| {
          assert r[i] == b[i - |a| - 1];
          if i + 1 < |r| { assert r[i + 1] == b[i - |a|]; }
        }
      }
      assert r[0] == a[0];
      assert r[|r| - 1] == b[|b| - 1];
    }
  }

  /** `split` undoes `' '.join` on words. */
  lemma {:induction false} SplitJoin(ws: seq<string>)
    requires forall k :: 0 <= k < |ws| ==> IsWord(ws[k])
    ensures Split(Join(" ", ws)) == ws
  {
    if |ws| == 1 {
      var w := ws[0];
      WordOfPrefix(w, []);
      assert w + [] == w;
      assert w[|w|..] == [];
    } else if |ws| >= 2 {
      var a, b := ws[0], Join(" ", ws[1..]);
      var r := a + (" " + b);
      assert Join(" ", ws) == r;
      assert Word(r) == a by { WordOfPrefix(a, " " + b); }
      assert Split(r) == [a] + Split(b) by {
        assert r[0] == a[0];
        assert r[|a|..] == " " + b;
        assert (" " + b)[1..] == b;
      }
      SplitJoin(ws[1..]);
      assert ws == [a] + ws[1..];
    }
  }

  /** The first word of a non-empty normal string is non-empty, and either
      it is the whole string or a single ' ' follows it and more follows. */
  lemma WordOfNormal(x: string)
    requires Normal(x) && x != []
    ensures var w := Word(x);
      && w != []
      && (|w| == |x| || (x[|w|] == ' ' && |w| + 1 < |x|))
  {
    var w := Word(x);
    assert w != [] by { assert !IsSpace(x[0]); }
    if |w| < |x| {
      assert IsSpace(x[|w|]);
      assert |w| + 1 < |x| by { assert !IsSpace(x[|x| - 1]); }
    }
  }

  /** What follows the first word and its space in a normal string is normal
      and non-empty. */
  lemma TailNormal(x: string, n: nat)
    requires Normal(x) && n + 1 < |x| && x[n] == ' '
    ensures Normal(x[n + 1..]) && x[n + 1..] != []
  {
    var tail := x[n + 1..];
    SliceSingleSpaced(x, n + 1, |x|);
    assert x[n + 1..|x|] == tail;
    assert tail[0] == x[n + 1];
    assert !IsSpace(x[n + 1]);
    assert tail[|tail| - 1] == x[|x| - 1];
  }

  /** `split` of a word, a space and a non-space-led rest. */
  lemma SplitAfterWord(x: string, w: string, tail: string)
    requires x != [] && w == Word(x) && w != [] && |w| + 1 < |x| && x[|w|] == ' '
    requires tail == x[|w| + 1..]
    ensures Split(x) == [w] + Split(tail)
  {
    assert !IsSpace(x[0]) by { assert w[0] == x[0]; }
    var rest := x[|w|..];
    assert rest[0] == ' ' && rest[1..] == tail;
    assert Split(rest) == Split(tail);
  }

  lemma JoinCons(w: string, ws: seq<string>)
    requires ws != []
    ensures Join(" ", [w] + ws) == w + " " + Join(" ", ws)
  {
    assert ([w] + ws)[1..] == ws;
  }

  /** `' '.join` undoes `split` on a normal string. */
  lemma {:induction false} JoinSplit(x: string)
    requires Normal(x)
    ensures Join(" ", Split(x)) == x
    decreases |x|
  {
    if x != [] {
      var w := Word(x);
      WordOfNormal(x);
      if |w| == |x| {
        assert Split(x) == [x] by {
          assert !IsSpace(x[0]);
          assert w == x;
          assert x[|w|..] == [];
        }
      } else {
        var tail := x[|w| + 1..];
        assert Normal(tail) && tail != [] by { TailNormal(x, |w|); }
        assert Split(x) == [w] + Split(tail) by { SplitAfterWord(x, w, tail); }
        JoinSplit(tail);
        assert Split(tail) != [] by { assert !IsSpace(tail[0]); }
        assert Join(" ", Split(x)) == w + " " + tail by { JoinCons(w, Split(tail)); }
        assert x == w + " " + tail by { assert x == x[..|w|] + [x[|w|]] + tail; }
      }
    }
  }

  /** The normalised text has no leading or trailing whitespace, no two
      consecutive spaces and no line breaks. */
  lemma NormalizeIsNormal(s: string)
    ensures Normal(Normalize(s))
    ensures var r := Normalize(s);
      && (r != [] ==> !IsSpace(r[0]) && !IsSpace(r[|r| - 1]))
      && (forall i :: 0 <= i < |r| ==> r[i] != '\n' && r[i] != '\r')
      && (forall i :: 0 <= i < |r| - 1 ==> !(r[i] == ' ' && r[i + 1] == ' '))
  {
    JoinIsNormal(Split(s));
    var r := Normalize(s);
    forall i | 0 <= i < |r| ensures r[i] != '\n' && r[i] != '\r' {
      if r[i] == '\n' || r[i] == '\r' { assert IsSpace(r[i]); }
    }
  }

  /** Normalising twice is normalising once. */
  lemma NormalizeIdempotent(s: string)
    ensures Normalize(Normalize(s)) == Normalize(s)
  {
    SplitJoin(Split(s));
  }

  /** A string is left unchanged by normalisation exactly when it is normal. */
  lemma NormalizeFixpoint(x: string)
    ensures Normalize(x) == x <==> Normal(x)
  {
    if Normal(x) {
      JoinSplit(x);
    } else {
      NormalizeIsNormal(x);
    }
  }

  /** Every slice of a single-spaced string is single-spaced. */
  lemma SliceSingleSpaced(x: string, a: nat, b: nat)
    requires SingleSpaced(x) && a <= b <= |x|
    ensures SingleSpaced(x[a..b])
  {
    var y := x[a..b];
    forall i | 0 <= i < |y| && IsSpace(y[i])
      ensures y[i] == ' ' && (i + 1 < |y| ==> !IsSpace(y[i + 1]))
    {
      assert y[i] == x[a + i];
      if i + 1 < |y| { assert y[i + 1] == x[a + i + 1]; }
    }
  }

  lemma LStripSingleSpaced(x: string)
    requires SingleSpaced(x)
    ensures SingleSpaced(LStrip(x))
  {
    var l := LStrip(x);
    SliceSingleSpaced(x, |x| - |l|, |x|);
    assert x[|x| - |l|..|x|] == l;
  }

  lemma RStripSingleSpaced(l: string)
    requires SingleSpaced(l)
    ensures SingleSpaced(RStrip(l))
  {
    var r := RStrip(l);
    SliceSingleSpaced(l, 0, |r|);
    assert l[0..|r|] == r;
  }

  /** Stripping a single-spaced string leaves a normal one. */
  lemma StripSingleSpaced(x: string)
    requires SingleSpaced(x)
    ensures Normal(Strip(x))
  {
    var l := LStrip(x);
    LStripSingleSpaced(x);
    var r := RStrip(l);
    RStripSingleSpaced(l);
    if r != [] {
      assert r[0] == l[0];
    }
  }

  /** A normal string has no line breaks and survives stripping. */
  lemma NormalUntouched(x: string)
    requires Normal(x)
    ensures Strip(x) == x
    ensures ReplaceChar(x, '\n', ' ') == x && ReplaceChar(x, '\r', ' ') == x
  {
    forall i | 0 <= i < |x| ensures x[i] != '\n' && x[i] != '\r' {
      if x[i] == '\n' || x[i] == '\r' { assert IsSpace(x[i]); }
    }
  }
}
