/** Password rules over the decimal digits of a number: two equal adjacent
    digits, digits that never decrease, and a pair of equal digits that is
    not part of a longer group; and the counts over the puzzle's range. */
module Day04 {

  // ---------------------------------------------------------------------
  // Decimal text
  // ---------------------------------------------------------------------

  predicate IsDigit(c: char) { '0' <= c <= '9' }

  /** `n.to_string()`: the decimal digits, most significant first, no leading zero. */
  function ToString(n: nat): (s: seq<char>)
    ensures 1 <= |s|
    ensures forall i :: 0 <= i < |s| ==> IsDigit(s[i])
    ensures n >= 10 ==> s[0] != '0'
  {
    if n < 10 then ['0' + n as char]
    else ToString(n / 10) + ['0' + (n % 10) as char]
  }

  /** The number a string of digits spells. */
  function Value(s: seq<char>): int
  {
    if s == [] then 0 else 10 * Value(s[..|s| - 1]) + (s[|s| - 1] as int - '0' as int)
  }

  /** Printing and reading back give the number again. */
  lemma {:induction false} ToStringRoundTrip(n: nat)
    ensures Value(ToString(n)) == n
  {
    if n >= 10 {
      var s := ToString(n);
      assert s[..|s| - 1] == ToString(n / 10);
      ToStringRoundTrip(n / 10);
    }
  }

  // ---------------------------------------------------------------------
  // The two closures over `windows(2)`
  // ---------------------------------------------------------------------

  /** `windows(2)`: every adjacent pair, in order. */
  function Windows(pw: seq<char>): (w: seq<(char, char)>)
    ensures |w| == if |pw| < 2 then 0 else |pw| - 1
    ensures forall i :: 0 <= i < |w| ==> w[i] == (pw[i], pw[i + 1])
  {
    if |pw| < 2 then [] else [(pw[0], pw[1])] + Windows(pw[1..])
  }

  /** `two_same`: some window holds two equal digits. */
  predicate TwoSame(pw: seq<char>)
  {
    exists i :: 0 <= i < |Windows(pw)| && Windows(pw)[i].0 == Windows(pw)[i].1
  }

  /** `never_dec`: no window decreases. */
  predicate NeverDec(pw: seq<char>)
  {
    forall i :: 0 <= i < |Windows(pw)| ==> Windows(pw)[i].0 <= Windows(pw)[i].1
  }

  /** `two_same` holds exactly when two adjacent digits are equal. */
  lemma TwoSameIff(pw: seq<char>)
    ensures TwoSame(pw) <==> exists i :: 0 <= i < |pw| - 1 && pw[i] == pw[i + 1]
  {
    if TwoSame(pw) {
      var i :| 0 <= i < |Windows(pw)| && Windows(pw)[i].0 == Windows(pw)[i].1;
      assert pw[i] == pw[i + 1];
    }
    if exists i :: 0 <= i < |pw| - 1 && pw[i] == pw[i + 1] {
      var i :| 0 <= i < |pw| - 1 && pw[i] == pw[i + 1];
      assert Windows(pw)[i].0 == Windows(pw)[i].1;
    }
  }

  /** `never_dec` holds exactly when the digits are sorted: every digit is
      at most every digit after it, not only the next one. */
  lemma NeverDecSorted(pw: seq<char>)
    ensures NeverDec(pw) <==> forall i, j :: 0 <= i <= j < |pw| ==> pw[i] <= pw[j]
  {
    if NeverDec(pw) {
      forall i, j | 0 <= i <= j < |pw|
        ensures pw[i] <= pw[j]
      {
        SortedFrom(pw, i, j);
      }
    }
    if forall i, j :: 0 <= i <= j < |pw| ==> pw[i] <= pw[j] {
      forall i | 0 <= i < |Windows(pw)|
        ensures Windows(pw)[i].0 <= Windows(pw)[i].1
      {
        assert pw[i] <= pw[i + 1];
      }
    }
  }

  lemma {:induction false} SortedFrom(pw: seq<char>, i: nat, j: nat)
    requires NeverDec(pw) && i <= j < |pw|
    ensures pw[i] <= pw[j]
    decreases j - i
  {
    if i < j {
      SortedFrom(pw, i, j - 1);
      assert Windows(pw)[j - 1] == (pw[j - 1], pw[j]);
    }
  }

  // ---------------------------------------------------------------------
  // `no_large_group`
  // ---------------------------------------------------------------------

  /** A group of exactly two equal digits starts at `i`: the digits at `i`
      and `i + 1` are equal and neither neighbour continues the group. */
  predicate ExactPairAt(pw: seq<char>, i: int)
    requires 0 <= i < |pw| - 1
  {
    && pw[i] == pw[i + 1]
    && (i == 0 || pw[i - 1] != pw[i])
    && (i + 2 == |pw| || pw[i + 2] != pw[i])
  }

  predicate ExactPair(pw: seq<char>)
  {
    exists i :: 0 <= i < |pw| - 1 && ExactPairAt(pw, i)
  }

  /** `no_large_group`: the scan that counts the current group and reports
      as soon as a group of two ends; `pw[0]` panics on an empty string. */
  method NoLargeGroup(pw: seq<char>) returns (r: bool)
    requires |pw| > 0
    ensures r <==> ExactPair(pw)
  {
    var last := pw[0];
    var lastCount := 1;
    var k := 1;
    while k < |pw|
      invariant 1 <= lastCount <= k <= |pw|
      invariant last == pw[k - 1]
      invariant forall j :: k - lastCount <= j < k ==> pw[j] == last
      invariant k - lastCount == 0 || pw[k - lastCount - 1] != last
      invariant forall i :: 0 <= i < k - lastCount - 1 ==> !ExactPairAt(pw, i)
    {
      var p := pw[k];
      if p == last {
        lastCount := lastCount + 1;
      } else {
        if lastCount == 2 {
          assert ExactPairAt(pw, k - 2);
          return true;
        }
        forall i | 0 <= i < k - 1
          ensures !ExactPairAt(pw, i)
        {
          if i >= k - lastCount - 1 && pw[i] == pw[i + 1] {
            assert i >= k - lastCount;
            if i > k - lastCount {
              assert pw[i - 1] == pw[i];
            } else {
              assert i + 2 < k;
            }
          }
        }
        last := p;
        lastCount := 1;
      }
      k := k + 1;
    }
    r := lastCount == 2;
    if r {
      assert ExactPairAt(pw, |pw| - 2);
    } else {
      forall i | 0 <= i < |pw| - 1
        ensures !ExactPairAt(pw, i)
      {
        if i >= k - lastCount - 1 && pw[i] == pw[i + 1] {
          assert i >= k - lastCount;
          if i > k - lastCount {
            assert pw[i - 1] == pw[i];
          } else {
            assert i + 2 < k;
          }
        }
      }
    }
  }

  /** A group of exactly two is in particular two equal adjacent digits. */
  lemma ExactPairTwoSame(pw: seq<char>)
    requires ExactPair(pw)
    ensures TwoSame(pw)
  {
    var i :| 0 <= i < |pw| - 1 && ExactPairAt(pw, i);
    TwoSameIff(pw);
  }

  /** On sorted digits a repeated digit forms a single group, so the
      strings with a group of exactly two are those where some digit
      occurs exactly twice. */
  lemma SortedExactPair(pw: seq<char>, i: int)
    requires NeverDec(pw) && 0 <= i < |pw| - 1 && ExactPairAt(pw, i)
    ensures forall j :: 0 <= j < |pw| && j != i && j != i + 1 ==> pw[j] != pw[i]
  {
    NeverDecSorted(pw);
    forall j | 0 <= j < |pw| && j != i && j != i + 1
      ensures pw[j] != pw[i]
    {
      if j < i {
        assert pw[j] <= pw[i - 1] <= pw[i];
      } else {
        assert pw[i] <= pw[i + 2] <= pw[j];
      }
    }
  }

  // ---------------------------------------------------------------------
  // The counts over 138241..=674034
  // ---------------------------------------------------------------------

  const Low: nat := 138241
  const High: nat := 674034

  predicate Part1Rule(n: nat) { TwoSame(ToString(n)) && NeverDec(ToString(n)) }

  predicate Part2Rule(n: nat) { Part1Rule(n) && ExactPair(ToString(n)) }

  /** How many numbers of `lo..=hi` meet part 1's rules (`part2` false) or part 2's. */
  function Count(lo: nat, hi: nat, part2: bool): nat
    decreases hi + 1 - lo
  {
    if lo > hi then 0
    else (if (if part2 then Part2Rule(lo) else Part1Rule(lo)) then 1 else 0) + Count(lo + 1, hi, part2)
  }

  function Part1(): nat { Count(Low, High, false) }

  function Part2(): nat { Count(Low, High, true) }

  /** Part 2's rule adds `no_large_group` to part 1's, so every number part 2
      counts, part 1 counts too; the bound follows from that structure. */
  lemma {:induction false} CountMonotone(lo: nat, hi: nat)
    ensures Count(lo, hi, true) <= Count(lo, hi, false)
    ensures Count(lo, hi, false) <= if lo > hi then 0 else hi + 1 - lo
    decreases hi + 1 - lo
  {
    if lo <= hi {
      CountMonotone(lo + 1, hi);
    }
  }

  /** In part 2's filter `two_same` is redundant: a group of exactly two is
      already two equal adjacent digits. */
  lemma Part2RuleWithoutTwoSame(n: nat)
    ensures Part2Rule(n) <==> NeverDec(ToString(n)) && ExactPair(ToString(n))
  {
    if NeverDec(ToString(n)) && ExactPair(ToString(n)) {
      ExactPairTwoSame(ToString(n));
    }
  }

  lemma Part2AtMostPart1()
    ensures Part2() <= Part1() <= High + 1 - Low
  {
    CountMonotone(Low, High);
  }
}
