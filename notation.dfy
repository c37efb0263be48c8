/**
 * MPSZ hand notation: a string such as "m123p406 z666" lists tiles as a suit letter followed
 * by rank digits, with a blank before each called group. `Tokens` reads it the way the hand
 * frame does: the regular expression `[mpszb][0-9]*| ` is matched leftmost-first and without
 * overlap, a blank gives one spacer and a suit run gives one tile per digit; everything else
 * is skipped. `Emit` is an independent per-character reading of the same notation, and the
 * lemmas state what the reading keeps, drops and how it composes.
 */
module Notation {
  import opened Wrappers
  import opened Chars

  /** One display item of a hand row: a tile image, or the blank spacer before a called group. */
  datatype Label = Tile(suit: char, rank: char) | Spacer

  /** The suit letters of `[mpszb]`: man, pin, sou, honours, and 'b' for a face-down tile. */
  predicate IsSuit(c: char)
  {
    c == 'm' || c == 'p' || c == 's' || c == 'z' || c == 'b'
  }

  /** The shape of one regular-expression match: a blank, or a suit letter followed by digits. */
  predicate IsMatch(m: string)
  {
    m == " " || (m != [] && IsSuit(m[0]) && forall j :: 1 <= j < |m| ==> IsDigit(m[j]))
  }

  /** How far the greedy `[0-9]*` reaches from the start of `t`. */
  function DigitRun(t: string): (k: nat)
    ensures k <= |t|
    ensures forall i :: 0 <= i < k ==> IsDigit(t[i])
    ensures k == |t| || !IsDigit(t[k])
  {
    if t == [] || !IsDigit(t[0]) then 0 else 1 + DigitRun(t[1..])
  }

  /** `re.findall(r'[mpszb][0-9]*| ', s)`: the matches, left to right. */
  function FindAll(s: string): (ms: seq<string>)
    ensures forall i :: 0 <= i < |ms| ==> IsMatch(ms[i])
    decreases |s|
  {
    if s == [] then []
    else if IsSuit(s[0]) then
      var k := DigitRun(s[1..]);
      assert forall j :: 0 <= j < k ==> s[..k + 1][j + 1] == s[1..][j];
      [s[..k + 1]] + FindAll(s[k + 1..])
    else if s[0] == ' ' then [" "] + FindAll(s[1..])
    else FindAll(s[1..])
  }

  /** The labels of one match: a spacer for a blank, else one tile per digit after the suit letter. */
  function Explode(m: string): seq<Label>
    requires m != []
  {
    if m == " " then [Spacer] else seq(|m| - 1, i requires 0 <= i < |m| - 1 => Tile(m[0], m[i + 1]))
  }

  /** The labels of a list of matches, in order. */
  function Expand(ms: seq<string>): seq<Label>
    requires forall i :: 0 <= i < |ms| ==> ms[i] != []
  {
    if ms == [] then [] else Explode(ms[0]) + Expand(ms[1..])
  }

  /** The labels the hand frame shows for notation `s`. */
  function Tokens(s: string): seq<Label>
  {
    Expand(FindAll(s))
  }

  // ---------------------------------------------------------------------------------------
  // The reference reading, one character at a time, left to right.

  /**
   * The suit letter governing the character after `x`, given the one `g` governing `x`:
   * a suit letter starts a run, a digit continues the run it is in, anything else ends it.
   */
  function Next(g: Option<char>, x: char): Option<char>
  {
    if IsSuit(x) then Some(x) else if IsDigit(x) then g else None
  }

  /** What character `x` adds when governed by `g`: a blank a spacer, a governed digit a tile. */
  function Contribution(g: Option<char>, x: char): seq<Label>
  {
    if x == ' ' then [Spacer]
    else if IsDigit(x) && g.Some? then [Tile(g.value, x)]
    else []
  }

  /** The labels of `s` read from a state where `g` governs its first character. */
  function Read(g: Option<char>, s: string): seq<Label>
    decreases |s|
  {
    if s == [] then [] else Contribution(g, s[0]) + Read(Next(g, s[0]), s[1..])
  }

  /** The suit letter governing the character after `s`, read from state `g`. */
  function After(g: Option<char>, s: string): Option<char>
    decreases |s|
  {
    if s == [] then g else After(Next(g, s[0]), s[1..])
  }

  /** The reference reading of a whole notation string: nothing governs its first character. */
  function Emit(s: string): seq<Label>
  {
    Read(None, s)
  }

  /** The suit letter that governs the next character after `p`, if any. */
  function Governing(p: string): Option<char>
  {
    After(None, p)
  }

  /** Number of digits of `s`, read from state `g`, that some suit letter governs. */
  function Attached(g: Option<char>, s: string): nat
    decreases |s|
  {
    if s == [] then 0
    else (if IsDigit(s[0]) && g.Some? then 1 else 0) + Attached(Next(g, s[0]), s[1..])
  }

  /** Number of digits of `s` that some suit letter governs: the digits a suit run consumes. */
  function AttachedDigits(s: string): nat
  {
    Attached(None, s)
  }

  // ---------------------------------------------------------------------------------------
  // Lemmas.

  /** Reading a concatenation: the first part, then the second from the state the first leaves. */
  lemma {:induction false} ReadConcat(g: Option<char>, s: string, t: string)
    ensures Read(g, s + t) == Read(g, s) + Read(After(g, s), t)
    ensures After(g, s + t) == After(After(g, s), t)
    decreases |s|
  {
    if s == [] {
      assert s + t == t;
    } else {
      assert (s + t)[0] == s[0] && (s + t)[1..] == s[1..] + t;
      ReadConcat(Next(g, s[0]), s[1..], t);
    }
  }

  /** A state that governs nothing the next character can use is as good as none. */
  lemma ReadReset(g: Option<char>, t: string)
    requires g == None || t == [] || !IsDigit(t[0])
    ensures Read(g, t) == Read(None, t)
    ensures g == None || t != [] ==> After(g, t) == After(None, t)
  {
    if t != [] {
      assert Next(g, t[0]) == Next(None, t[0]);
    }
  }

  /** One more character: the reading so far, then what the character contributes. */
  lemma EmitSnoc(p: string, x: char)
    ensures Emit(p + [x]) == Emit(p) + Contribution(Governing(p), x)
    ensures Governing(p + [x]) == Next(Governing(p), x)
  {
    ReadConcat(None, p, [x]);
    assert [x][1..] == [];
  }

  /**
   * What `Governing` means: a governing letter is a suit letter of `p` followed only by digits,
   * and there is none exactly when every suit letter of `p` is followed by some non-digit.
   */
  lemma {:induction false} GoverningMeaning(p: string)
    ensures Governing(p).Some? ==> IsSuit(Governing(p).value)
    ensures Governing(p).Some? ==>
      exists j :: 0 <= j < |p| && p[j] == Governing(p).value && forall k :: j < k < |p| ==> IsDigit(p[k])
    ensures Governing(p).None? ==>
      forall j :: 0 <= j < |p| && IsSuit(p[j]) ==> exists k :: j < k < |p| && !IsDigit(p[k])
    decreases |p|
  {
    if p != [] {
      var n := |p| - 1;
      var x, q := p[n], p[..n];
      assert p == q + [x];
      EmitSnoc(q, x);
      assert forall k :: 0 <= k < n ==> q[k] == p[k];
      if IsSuit(x) {
        assert p[n] == Governing(p).value;
      } else if IsDigit(x) {
        GoverningMeaning(q);
        if Governing(q).Some? {
          var j :| 0 <= j < |q| && q[j] == Governing(q).value && forall k :: j < k < |q| ==> IsDigit(q[k]);
          assert p[j] == Governing(p).value && forall k :: j < k < |p| ==> IsDigit(p[k]);
        } else {
          forall j | 0 <= j < |p| && IsSuit(p[j])
            ensures exists k :: j < k < |p| && !IsDigit(p[k])
          {
            assert j < n && IsSuit(q[j]);
            var k :| j < k < |q| && !IsDigit(q[k]);
            assert !IsDigit(p[k]);
          }
        }
      } else {
        forall j | 0 <= j < |p| && IsSuit(p[j])
          ensures exists k :: j < k < |p| && !IsDigit(p[k])
        {
          assert j < n && !IsDigit(p[n]);
        }
      }
    }
  }

  /** A character that is not a digit cuts off the governing suit letter of what came before. */
  lemma GoverningConcat(s: string, t: string)
    requires Governing(s) == None || (t != [] && !IsDigit(t[0]))
    ensures Governing(s + t) == Governing(t)
  {
    ReadConcat(None, s, t);
    ReadReset(Governing(s), t);
  }

  /** The reading splits wherever the governing suit letter is cut off. */
  lemma EmitConcat(s: string, t: string)
    requires Governing(s) == None || t == [] || !IsDigit(t[0])
    ensures Emit(s + t) == Emit(s) + Emit(t)
  {
    ReadConcat(None, s, t);
    ReadReset(Governing(s), t);
  }

  /** Digits under suit letter c read as the tiles (c, d1)..(c, dk), and c still governs after them. */
  lemma {:induction false} ReadDigits(c: char, ds: string)
    requires forall i :: 0 <= i < |ds| ==> IsDigit(ds[i])
    ensures Read(Some(c), ds) == seq(|ds|, i requires 0 <= i < |ds| => Tile(c, ds[i]))
    ensures After(Some(c), ds) == Some(c)
    decreases |ds|
  {
    if ds != [] {
      ReadDigits(c, ds[1..]);
    }
  }

  /** A suit letter followed by digits d1..dk reads as the tiles (c, d1)..(c, dk), in order. */
  lemma EmitRun(c: char, ds: string)
    requires IsSuit(c)
    requires forall i :: 0 <= i < |ds| ==> IsDigit(ds[i])
    ensures Emit([c] + ds) == seq(|ds|, i requires 0 <= i < |ds| => Tile(c, ds[i]))
    ensures Governing([c] + ds) == Some(c)
  {
    ReadConcat(None, [c], ds);
    assert [c][1..] == [];
    ReadDigits(c, ds);
  }

  /** Matching the regular expression and reading character by character agree on every string. */
  lemma {:induction false} TokensAreEmit(s: string)
    ensures Tokens(s) == Emit(s)
    decreases |s|
  {
    if s != [] {
      var b := s[1..];
      if IsSuit(s[0]) {
        var k := DigitRun(b);
        var a, b' := s[..k + 1], s[k + 1..];
        assert s == a + b';
        assert a == [s[0]] + b[..k];
        EmitRun(s[0], b[..k]);
        assert b' != [] ==> b'[0] == b[k];
        EmitConcat(a, b');
        TokensAreEmit(b');
        assert FindAll(s)[1..] == FindAll(b');
      } else {
        assert Next(None, s[0]) == None;
        TokensAreEmit(b);
        if s[0] == ' ' {
          assert FindAll(s)[1..] == FindAll(b);
        }
      }
    }
  }

  /** A blank is a cut: the notation before it, one spacer, then the notation after it. */
  lemma SpaceSplits(s: string, t: string)
    ensures Tokens(s + " " + t) == Tokens(s) + [Spacer] + Tokens(t)
  {
    var v := " " + t;
    assert Emit(v) == [Spacer] + Emit(t) by {
      assert v[0] == ' ' && v[1..] == t;
    }
    assert Emit(s + v) == Emit(s) + Emit(v) by {
      EmitConcat(s, v);
    }
    assert s + " " + t == s + v;
    TokensAreEmit(s);
    TokensAreEmit(t);
    TokensAreEmit(s + v);
  }

  /**
   * A suit letter followed by digits d1..dk, and then by anything that does not start with a
   * digit, reads as the tiles (c, d1)..(c, dk) followed by the reading of the rest; with k = 0
   * a bare suit letter reads as nothing.
   */
  lemma SuitRun(c: char, ds: string, t: string)
    requires IsSuit(c)
    requires forall i :: 0 <= i < |ds| ==> IsDigit(ds[i])
    requires t == [] || !IsDigit(t[0])
    ensures Tokens([c] + ds + t) == seq(|ds|, i requires 0 <= i < |ds| => Tile(c, ds[i])) + Tokens(t)
  {
    TokensAreEmit([c] + ds + t);
    TokensAreEmit(t);
    EmitRun(c, ds);
    EmitConcat([c] + ds, t);
  }

  /** A suit letter with no digit after it yields nothing. */
  lemma BareSuitLetter(c: char, t: string)
    requires IsSuit(c)
    requires t == [] || !IsDigit(t[0])
    ensures Tokens([c] + t) == Tokens(t)
  {
    SuitRun(c, [], t);
    assert [c] + [] + t == [c] + t;
  }

  /** Characters that are neither suit letters nor blanks read as nothing and cut off any run. */
  lemma {:induction false} EmitSkipped(u: string)
    requires forall i :: 0 <= i < |u| ==> !IsSuit(u[i]) && u[i] != ' '
    ensures Emit(u) == [] && Governing(u) == None
    decreases |u|
  {
    if u != [] {
      EmitSkipped(u[1..]);
    }
  }

  /**
   * Any prefix made of characters other than suit letters and blanks contributes nothing:
   * neither upper-case letters, punctuation, nor digits no suit letter reaches.
   */
  lemma SkippedPrefix(u: string, t: string)
    requires forall i :: 0 <= i < |u| ==> !IsSuit(u[i]) && u[i] != ' '
    ensures Tokens(u + t) == Tokens(t)
  {
    EmitSkipped(u);
    EmitConcat(u, t);
    TokensAreEmit(u + t);
    TokensAreEmit(t);
  }

  /** In the reference reading, each blank gives exactly one spacer, whatever the state. */
  lemma {:induction false} ReadSpacerCount(g: Option<char>, s: string)
    ensures multiset(Read(g, s))[Spacer] == multiset(s)[' ']
    decreases |s|
  {
    if s != [] {
      assert Read(g, s) == Contribution(g, s[0]) + Read(Next(g, s[0]), s[1..]);
      assert multiset(s) == multiset([s[0]]) + multiset(s[1..]) by {
        assert s == [s[0]] + s[1..];
      }
      ReadSpacerCount(Next(g, s[0]), s[1..]);
    }
  }

  /** Each blank of the input gives exactly one spacer. */
  lemma SpacerCount(s: string)
    ensures multiset(Tokens(s))[Spacer] == multiset(s)[' ']
  {
    TokensAreEmit(s);
    ReadSpacerCount(None, s);
  }

  /** In the reference reading, every blank and every governed digit gives one label. */
  lemma {:induction false} ReadCount(g: Option<char>, s: string)
    ensures |Read(g, s)| == multiset(s)[' '] + Attached(g, s)
    decreases |s|
  {
    if s != [] {
      assert Read(g, s) == Contribution(g, s[0]) + Read(Next(g, s[0]), s[1..]);
      assert multiset(s) == multiset([s[0]]) + multiset(s[1..]) by {
        assert s == [s[0]] + s[1..];
      }
      ReadCount(Next(g, s[0]), s[1..]);
    }
  }

  /** The number of labels is the number of blanks plus the number of digits suit runs consume. */
  lemma TokenCount(s: string)
    ensures |Tokens(s)| == multiset(s)[' '] + AttachedDigits(s)
  {
    TokensAreEmit(s);
    ReadCount(None, s);
  }

  /** Every tile read under a suit letter, or under none, has a suit letter and a rank digit. */
  lemma {:induction false} ReadWellFormed(g: Option<char>, s: string)
    requires g.Some? ==> IsSuit(g.value)
    ensures forall i :: 0 <= i < |Read(g, s)| && Read(g, s)[i].Tile? ==>
      IsSuit(Read(g, s)[i].suit) && IsDigit(Read(g, s)[i].rank)
    decreases |s|
  {
    if s != [] {
      ReadWellFormed(Next(g, s[0]), s[1..]);
    }
  }

  /** Every tile read has a suit letter and a rank digit. */
  lemma TilesWellFormed(s: string)
    ensures forall i :: 0 <= i < |Tokens(s)| && Tokens(s)[i].Tile? ==>
      IsSuit(Tokens(s)[i].suit) && IsDigit(Tokens(s)[i].rank)
  {
    TokensAreEmit(s);
    ReadWellFormed(None, s);
  }

  /** Digits before a suit letter reach nothing: only the suit run after them gives tiles. */
  lemma DigitsBeforeRun(ds: string, c: char, d: char)
    requires forall i :: 0 <= i < |ds| ==> IsDigit(ds[i])
    requires IsSuit(c) && IsDigit(d)
    ensures Tokens(ds + [c, d]) == [Tile(c, d)]
  {
    SkippedPrefix(ds, [c, d]);
    SuitRun(c, [d], []);
    assert [c] + [d] + [] == [c, d];
  }

  /** Example: the leading digits reach no suit letter, so "123m4" shows only the tile m4. */
  lemma UnattachedDigitsExample()
    ensures Tokens("123m4") == [Tile('m', '4')]
  {
    DigitsBeforeRun("123", 'm', '4');
    assert "123" + ['m', '4'] == "123m4";
  }
}
