/**
 * Score tokens such as "6-4 3-6 6-2": the digit scan that turns a token into
 * set scores (Torneo.cc's conv) and the rule that decides a match from a
 * token (Torneo.cc's match).
 */
module Scores {

  /** One set: games of the first player, games of the second. */
  datatype Pair = Pair(first: int, second: int)

  predicate IsScoreDigit(c: char) {
    '0' <= c <= '7'
  }

  /** The values of the characters '0'..'7' of `s`, in order; every other
      character, '8' and '9' included, is skipped. */
  function Digits(s: string): (d: seq<int>)
    ensures |d| <= |s|
  {
    if s == [] then []
    else
      var c := s[|s| - 1];
      Digits(s[..|s| - 1]) + if IsScoreDigit(c) then [c as int - '0' as int] else []
  }

  /** Consecutive digits taken two at a time; an unpaired last digit is dropped. */
  function Pairs(d: seq<int>): seq<Pair> {
    seq(|d| / 2, i requires 0 <= i < |d| / 2 => Pair(d[2 * i], d[2 * i + 1]))
  }

  /** The set scores a token denotes. */
  function SetScores(s: string): seq<Pair> {
    Pairs(Digits(s))
  }

  lemma {:induction false} DigitsAppend(s: string, t: string)
    ensures Digits(s + t) == Digits(s) + Digits(t)
    decreases |t|
  {
    if t == [] {
      assert s + t == s;
    } else {
      var t' := t[..|t| - 1];
      assert (s + t)[..|s + t| - 1] == s + t';
      DigitsAppend(s, t');
    }
  }

  /** Every digit kept lies in 0..7. */
  lemma {:induction false} DigitsRange(s: string)
    ensures forall i :: 0 <= i < |Digits(s)| ==> 0 <= Digits(s)[i] <= 7
  {
    if s != [] {
      DigitsRange(s[..|s| - 1]);
    }
  }

  /** The scan keeps exactly the digits 0..7 of the token, so the token
      denotes floor(#digits / 2) sets, each pairing two consecutive digits,
      and every game count lies in 0..7. */
  lemma SetScoresShape(s: string)
    ensures |SetScores(s)| == |Digits(s)| / 2
    ensures forall i :: 0 <= i < |SetScores(s)| ==>
              SetScores(s)[i] == Pair(Digits(s)[2 * i], Digits(s)[2 * i + 1]) &&
              0 <= SetScores(s)[i].first <= 7 && 0 <= SetScores(s)[i].second <= 7
  {
    DigitsRange(s);
  }

  lemma PairsSnoc(d: seq<int>, e: int)
    ensures Pairs(d + [e]) ==
            if |d| % 2 == 1 then Pairs(d) + [Pair(d[|d| - 1], e)] else Pairs(d)
  {
    var d' := d + [e];
    if |d| % 2 == 1 {
      assert |d'| / 2 == |d| / 2 + 1;
      forall i | 0 <= i < |d| / 2 ensures Pairs(d')[i] == Pairs(d)[i] {
      }
    } else {
      assert |d'| / 2 == |d| / 2;
    }
  }

  /** One more character of the token adds its digit, if it is one. */
  lemma DigitsPrefix(s: string, i: int)
    requires 0 <= i < |s|
    ensures Digits(s[..i + 1]) == Digits(s[..i]) + if IsScoreDigit(s[i]) then [s[i] as int - '0' as int] else []
  {
    assert s[..i + 1][..i] == s[..i];
  }

  lemma DigitsWhole(s: string)
    ensures Digits(s[..|s|]) == Digits(s)
  {
    assert s[..|s|] == s;
  }

  /** Scans `res` left to right, pairing up the digits 0..7. */
  method Conv(res: string) returns (v: seq<Pair>)
    ensures v == SetScores(res)
  {
    v := [];
    var n := |res|;
    var x, y, cont := 0, 0, 0;
    ghost var d: seq<int> := [];
    for i := 0 to n
      invariant d == Digits(res[..i])
      invariant cont == |d| % 2
      invariant v == Pairs(d)
      invariant cont == 1 ==> x == d[|d| - 1]
    {
      DigitsPrefix(res, i);
      if '0' <= res[i] <= '7' {
        if cont == 0 {
          x := res[i] as int - '0' as int;
        } else {
          y := res[i] as int - '0' as int;
        }
        cont := cont + 1;
        PairsSnoc(d, res[i] as int - '0' as int);
        d := d + [res[i] as int - '0' as int];
      }
      if cont == 2 {
        v := v + [Pair(x, y)];
        cont := 0;
      }
    }
    DigitsWhole(res);
  }

  /** The number of sets in which the first player won more games; a set
      with equal games counts for the second player. */
  function FirstWins(v: seq<Pair>): (k: nat)
    ensures k <= |v|
  {
    if v == [] then 0
    else FirstWins(v[..|v| - 1]) + if v[|v| - 1].first > v[|v| - 1].second then 1 else 0
  }

  /** The winner of a match between `a` (first) and `b` (second): the
      walkovers "1-0" and "0-1" name the winner; otherwise `a` wins exactly
      when it won strictly more of the parsed sets than `b`, so a token with
      no sets, or a tie in sets, goes to `b`. */
  function MatchWinner(a: int, b: int, res: string): (w: int)
    ensures w == a || w == b
    ensures res == "1-0" ==> w == a
    ensures res == "0-1" ==> w == b
    ensures res != "1-0" && res != "0-1" ==>
              var v := SetScores(res);
              (2 * FirstWins(v) > |v| ==> w == a) && (2 * FirstWins(v) <= |v| ==> w == b)
  {
    if res == "1-0" then a
    else if res == "0-1" then b
    else
      var v := SetScores(res);
      var x := FirstWins(v);
      if x > |v| - x then a else b
  }

  /** Decides the match by counting the sets each side won. */
  method Match(a: int, b: int, res: string) returns (w: int)
    ensures w == MatchWinner(a, b, res)
  {
    if res == "1-0" {
      return a;
    } else if res == "0-1" {
      return b;
    }
    var v := Conv(res);
    var n := |v|;
    var x, y := 0, 0;
    for i := 0 to n
      invariant x == FirstWins(v[..i])
      invariant y == i - x
    {
      assert v[..i + 1][..i] == v[..i];
      if v[i].first > v[i].second {
        x := x + 1;
      } else {
        y := y + 1;
      }
    }
    assert v[..n] == v;
    if x > y {
      w := a;
    } else {
      w := b;
    }
  }

  /** The character of a game count 0..7. */
  function DigitChar(n: int): (c: char)
    requires 0 <= n <= 7
    ensures IsScoreDigit(c) && c as int - '0' as int == n
  {
    ('0' as int + n) as char
  }

  /** Every game count lies in 0..7, the counts a token can carry. */
  predicate ValidSets(v: seq<Pair>) {
    forall i :: 0 <= i < |v| ==> 0 <= v[i].first <= 7 && 0 <= v[i].second <= 7
  }

  /** One set written "x-y". */
  function SetText(p: Pair): string
    requires 0 <= p.first <= 7 && 0 <= p.second <= 7
  {
    [DigitChar(p.first), '-', DigitChar(p.second)]
  }

  /** The token for a list of sets: the sets written "x-y", separated by
      blanks, as in "6-4 3-6 6-2". */
  function Render(v: seq<Pair>): string
    requires ValidSets(v)
  {
    if v == [] then []
    else if |v| == 1 then SetText(v[0])
    else Render(v[..|v| - 1]) + " " + SetText(v[|v| - 1])
  }

  /** The game counts of `v` in order, first and second of each set. */
  function DigitsOf(v: seq<Pair>): (d: seq<int>)
    ensures |d| == 2 * |v|
    ensures forall i :: 0 <= i < |v| ==> d[2 * i] == v[i].first && d[2 * i + 1] == v[i].second
  {
    if v == [] then [] else DigitsOf(v[..|v| - 1]) + [v[|v| - 1].first, v[|v| - 1].second]
  }

  lemma SetTextDigits(p: Pair)
    requires 0 <= p.first <= 7 && 0 <= p.second <= 7
    ensures Digits(SetText(p)) == [p.first, p.second]
  {
    var t := SetText(p);
    assert t[..1][..0] == [];
    assert Digits(t[..1]) == [p.first];
    assert t[..2][..1] == t[..1];
    assert Digits(t[..2]) == [p.first];
    assert t[..2] == t[..|t| - 1];
  }

  lemma {:induction false} RenderDigits(v: seq<Pair>)
    requires ValidSets(v)
    ensures Digits(Render(v)) == DigitsOf(v)
  {
    if |v| == 1 {
      SetTextDigits(v[0]);
      assert v[..0] == [];
    } else if |v| > 1 {
      var u := v[..|v| - 1];
      RenderDigits(u);
      DigitsAppend(Render(u), " ");
      DigitsAppend(Render(u) + " ", SetText(v[|v| - 1]));
      SetTextDigits(v[|v| - 1]);
      assert " "[..0] == [];
    }
  }

  /** Scanning the token written for a list of sets gives the sets back. */
  lemma RenderRoundTrip(v: seq<Pair>)
    requires ValidSets(v)
    ensures SetScores(Render(v)) == v
  {
    RenderDigits(v);
    var d := DigitsOf(v);
    assert |Pairs(d)| == |v|;
    forall i | 0 <= i < |v| ensures Pairs(d)[i] == v[i] {
    }
  }

  /** "6-4 3-6 6-2": three sets, two of them won by the first player. */
  lemma ThreeSetExample()
    ensures SetScores("6-4 3-6 6-2") == [Pair(6, 4), Pair(3, 6), Pair(6, 2)]
    ensures MatchWinner(1, 2, "6-4 3-6 6-2") == 1
  {
    var v := [Pair(6, 4), Pair(3, 6), Pair(6, 2)];
    assert v[..2][..1] == [Pair(6, 4)] && v[..1][..0] == [];
    assert v[..|v| - 1] == v[..2] && v[..2][..|v[..2]| - 1] == v[..2][..1];
    assert Render(v) == "6-4 3-6 6-2" by {
      assert DigitChar(6) == '6' && DigitChar(4) == '4' && DigitChar(3) == '3' && DigitChar(2) == '2';
    }
    RenderRoundTrip(v);
    assert FirstWins(v[..1]) == 1;
    assert FirstWins(v[..2]) == 1;
    assert FirstWins(v) == 2;
    assert "6-4 3-6 6-2" != "1-0" && "6-4 3-6 6-2" != "0-1";
  }
}
