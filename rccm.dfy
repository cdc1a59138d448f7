/** `FakeDB.validateRCCM`: the registration-number format check, written as the
    anchored regular expression it tests, `^RB\/[A-Z]{3}\/\d{4}\/[A-Z]\/\d{3,4}$`,
    over a small matcher for sequences of counted character classes. */
module Rccm {

  /** `\d` and `[A-Z]` in a JavaScript regular expression without the `u` or
      `i` flag: ASCII only. */
  datatype CharClass = Lit(c: char) | Upper | Digit

  predicate InClass(c: char, k: CharClass)
  {
    match k
    case Lit(l) => c == l
    case Upper => 'A' <= c <= 'Z'
    case Digit => '0' <= c <= '9'
  }

  /** One class repeated between `min` and `max` times: `[A-Z]{3}`, `\d{3,4}`. */
  datatype Atom = Atom(cls: CharClass, min: nat, max: nat)

  type Pattern = seq<Atom>

  predicate AllIn(s: string, k: CharClass)
  {
    forall i :: 0 <= i < |s| ==> InClass(s[i], k)
  }

  /** The whole of `s` matches `p` (both anchors present). */
  predicate Matches(p: Pattern, s: string)
    decreases |p|, 1, 0
  {
    if p == [] then s == [] else MatchesFrom(p, s, p[0].min)
  }

  /** Some repetition count of the first atom, at least `k`, lets the rest match. */
  predicate MatchesFrom(p: Pattern, s: string, k: nat)
    requires p != []
    decreases |p|, 0, p[0].max - k
  {
    if k > p[0].max || k > |s| then false
    else (AllIn(s[..k], p[0].cls) && Matches(p[1..], s[k..])) || MatchesFrom(p, s, k + 1)
  }

  /** Every atom of the expression but the last has a fixed count. */
  const FixedPart: Pattern := [
    Atom(Lit('R'), 1, 1), Atom(Lit('B'), 1, 1), Atom(Lit('/'), 1, 1),
    Atom(Upper, 3, 3), Atom(Lit('/'), 1, 1),
    Atom(Digit, 4, 4), Atom(Lit('/'), 1, 1),
    Atom(Upper, 1, 1), Atom(Lit('/'), 1, 1)
  ]

  const RccmPattern: Pattern := FixedPart + [Atom(Digit, 3, 4)]

  /** `validateRCCM(rccm)`: `regex.test(rccm)`. */
  predicate ValidateRCCM(rccm: string): (valid: bool)
    ensures valid <==> RccmShaped(rccm)
  {
    RccmShape(rccm);
    Matches(RccmPattern, rccm)
  }

  /** The accepted shape, character by character: "RB/", three capitals, "/",
      four digits, "/", one capital, "/", then three or four digits. */
  predicate RccmShaped(s: string)
  {
    && (|s| == 17 || |s| == 18)
    && s[0] == 'R' && s[1] == 'B' && s[2] == '/'
    && AllIn(s[3..6], Upper) && s[6] == '/'
    && AllIn(s[7..11], Digit) && s[11] == '/'
    && InClass(s[12], Upper) && s[13] == '/'
    && AllIn(s[14..], Digit)
  }

  /** An atom with a fixed count consumes exactly that many characters. */
  lemma FixedAtom(a: Atom, rest: Pattern, s: string)
    requires a.min == a.max
    ensures Matches([a] + rest, s) <==>
      a.min <= |s| && AllIn(s[..a.min], a.cls) && Matches(rest, s[a.min..])
  {
    var p := [a] + rest;
    assert p[0] == a && p[1..] == rest;
    if a.min <= |s| {
      assert !MatchesFrom(p, s, a.min + 1);
    }
  }

  /** The final `\d{3,4}$`: three or four digits, then the end. */
  lemma LastAtom(s: string)
    ensures Matches([Atom(Digit, 3, 4)], s) <==> (|s| == 3 || |s| == 4) && AllIn(s, Digit)
  {
    var p := [Atom(Digit, 3, 4)];
    assert p[1..] == [];
    if |s| >= 4 {
      assert !MatchesFrom(p, s, 5);
      assert s[..4] == s ==> |s| == 4;
    }
    if |s| == 3 {
      assert s[..3] == s;
    }
    if |s| == 4 {
      assert s[..4] == s;
      assert AllIn(s, Digit) ==> AllIn(s[..3], Digit);
    }
  }

  /** The characters a run of fixed-count atoms consumes, one class per character. */
  function Expand(p: Pattern): seq<CharClass>
  {
    if p == [] then [] else seq(p[0].min, _ => p[0].cls) + Expand(p[1..])
  }

  predicate ClassesMatch(ks: seq<CharClass>, t: string)
  {
    |ks| == |t| && forall i :: 0 <= i < |t| ==> InClass(t[i], ks[i])
  }

  /** Matching a run of `n` copies of one class, then more classes, is
      matching the first `n` characters and then the rest. */
  lemma ClassesMatchSplit(n: nat, k: CharClass, e: seq<CharClass>, t: string)
    requires n <= |t|
    ensures ClassesMatch(seq(n, _ => k) + e, t) <==> AllIn(t[..n], k) && ClassesMatch(e, t[n..])
  {
    var ks := seq(n, _ => k) + e;
    if ClassesMatch(ks, t) {
      forall i | 0 <= i < |t| - n ensures InClass(t[n..][i], e[i]) {
        assert t[n..][i] == t[n + i] && ks[n + i] == e[i];
      }
      forall i | 0 <= i < n ensures InClass(t[..n][i], k) {
        assert t[..n][i] == t[i] && ks[i] == k;
      }
    }
    if AllIn(t[..n], k) && ClassesMatch(e, t[n..]) {
      forall i | 0 <= i < |t| ensures InClass(t[i], ks[i]) {
        if i < n {
          assert t[..n][i] == t[i];
        } else {
          assert t[n..][i - n] == t[i];
        }
      }
    }
  }

  /** A run of fixed-count atoms matches character by character. */
  lemma {:induction false} FixedPrefix(p: Pattern, tail: Pattern, s: string)
    requires forall i :: 0 <= i < |p| ==> p[i].min == p[i].max
    ensures var w := |Expand(p)|;
      Matches(p + tail, s) <==>
      w <= |s| && ClassesMatch(Expand(p), s[..w]) && Matches(tail, s[w..])
  {
    if p == [] {
      assert p + tail == tail;
    } else {
      var a, n := p[0], p[0].min;
      assert p + tail == [a] + (p[1..] + tail);
      FixedAtom(a, p[1..] + tail, s);
      var e := Expand(p[1..]);
      assert Expand(p) == seq(n, _ => a.cls) + e;
      if n <= |s| {
        FixedPrefix(p[1..], tail, s[n..]);
        var w := n + |e|;
        if w <= |s| {
          assert s[n..][..|e|] == s[..w][n..];
          assert s[n..][|e|..] == s[w..];
          assert s[..w][..n] == s[..n];
          ClassesMatchSplit(n, a.cls, e, s[..w]);
        }
      }
    }
  }

  /** One atom's share of the expansion. */
  lemma ExpandStep(p: Pattern)
    requires p != []
    ensures Expand(p) == seq(p[0].min, _ => p[0].cls) + Expand(p[1..])
  {
  }

  lemma ExpandFixedTail()
    ensures Expand(FixedPart[5..]) == [Digit, Digit, Digit, Digit, Lit('/'), Upper, Lit('/')]
  {
    var p := FixedPart;
    assert p[8..][1..] == [];
    ExpandStep(p[8..]);
    assert p[7..][1..] == p[8..];
    ExpandStep(p[7..]);
    assert p[6..][1..] == p[7..];
    ExpandStep(p[6..]);
    assert p[5..][1..] == p[6..];
    ExpandStep(p[5..]);
    assert seq(4, _ => Digit) == [Digit, Digit, Digit, Digit];
  }

  lemma ExpandFixedPart()
    ensures Expand(FixedPart) == [Lit('R'), Lit('B'), Lit('/'), Upper, Upper, Upper, Lit('/'),
                                  Digit, Digit, Digit, Digit, Lit('/'), Upper, Lit('/')]
  {
    var p := FixedPart;
    ExpandFixedTail();
    assert p[4..][1..] == p[5..];
    ExpandStep(p[4..]);
    assert p[3..][1..] == p[4..];
    ExpandStep(p[3..]);
    assert seq(3, _ => Upper) == [Upper, Upper, Upper];
    assert p[2..][1..] == p[3..];
    ExpandStep(p[2..]);
    assert p[1..][1..] == p[2..];
    ExpandStep(p[1..]);
    ExpandStep(p);
  }

  /** The fourteen characters the fixed atoms consume, position by position. */
  predicate FixedShaped(t: string)
    requires |t| == 14
  {
    && t[0] == 'R' && t[1] == 'B' && t[2] == '/'
    && AllIn(t[3..6], Upper) && t[6] == '/'
    && AllIn(t[7..11], Digit) && t[11] == '/'
    && InClass(t[12], Upper) && t[13] == '/'
  }

  lemma FixedClasses(t: string)
    requires |t| == 14
    ensures ClassesMatch(Expand(FixedPart), t) <==> FixedShaped(t)
  {
    var e := Expand(FixedPart);
    ExpandFixedPart();
    if ClassesMatch(e, t) {
      assert InClass(t[0], e[0]) && InClass(t[1], e[1]) && InClass(t[2], e[2]);
      assert InClass(t[6], e[6]) && InClass(t[11], e[11]);
      assert InClass(t[12], e[12]) && InClass(t[13], e[13]);
      forall i | 0 <= i < 3 ensures InClass(t[3..6][i], Upper) {
        assert t[3..6][i] == t[3 + i] && e[3 + i] == Upper;
      }
      forall i | 0 <= i < 4 ensures InClass(t[7..11][i], Digit) {
        assert t[7..11][i] == t[7 + i] && e[7 + i] == Digit;
      }
    }
    if FixedShaped(t) {
      forall i | 0 <= i < 14 ensures InClass(t[i], e[i]) {
        if 3 <= i < 6 {
          assert t[3..6][i - 3] == t[i];
        } else if 7 <= i < 11 {
          assert t[7..11][i - 7] == t[i];
        }
      }
    }
  }

  /** The regular expression accepts exactly the strings of the stated shape;
      in particular every accepted code is 17 or 18 characters long. */
  lemma RccmShape(s: string)
    ensures Matches(RccmPattern, s) <==> RccmShaped(s)
  {
    FixedPrefix(FixedPart, [Atom(Digit, 3, 4)], s);
    ExpandFixedPart();
    if 14 <= |s| {
      LastAtom(s[14..]);
      var t := s[..14];
      FixedClasses(t);
      assert t[3..6] == s[3..6] && t[7..11] == s[7..11];
    }
  }

  lemma AcceptsExample()
    ensures ValidateRCCM("RB/COT/2024/A/001")
  {
    RccmShape("RB/COT/2024/A/001");
  }

  lemma RejectsLowerCaseCity()
    ensures !ValidateRCCM("RB/cot/2024/A/001")
  {
    RccmShape("RB/cot/2024/A/001");
    assert !InClass("RB/cot/2024/A/001"[3..6][0], Upper);
  }

  lemma RejectsShortCounts()
    ensures !ValidateRCCM("RB/COT/24/A/1")
  {
    RccmShape("RB/COT/24/A/1");
  }
}
