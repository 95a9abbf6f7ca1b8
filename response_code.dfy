/**
 * Classification of a call's free-text tags into the two response codes of the
 * report: `CALL` (junk, missed, test or wrong-number calls) and `VCAL` (a valid call).
 */
module ResponseCode {
  import opened Wrappers

  /** The code for a call that the tags mark as not a real response. */
  const CallCode: string := "CALL"
  /** The code for every other call, including calls without tags. */
  const ValidCallCode: string := "VCAL"

  /** The keywords whose presence in the tags makes a call a `CALL`; all lower case. */
  const Keywords: seq<string> := ["junk", "missed call", "test", "wrong number"]

  /** ASCII lower-casing of one character; every other character is kept. */
  function LowerChar(c: char): char
  {
    if 'A' <= c <= 'Z' then (c as int - 'A' as int + 'a' as int) as char else c
  }

  /** ASCII lower-casing of a string, character by character. */
  function Lower(s: string): (r: string)
    ensures |r| == |s|
    ensures forall i :: 0 <= i < |s| ==> r[i] == LowerChar(s[i])
  {
    if s == [] then [] else [LowerChar(s[0])] + Lower(s[1..])
  }

  /** `k` occurs in `text` starting at position `i`. */
  ghost predicate OccursAt(k: string, text: string, i: int)
  {
    0 <= i && i + |k| <= |text| && text[i..i + |k|] == k
  }

  /** Substring test, as `k in text` on two strings: `k` is a prefix of some suffix of `text`. */
  function Occurs(k: string, text: string): bool
  {
    k <= text || (text != [] && Occurs(k, text[1..]))
  }

  lemma {:induction false} OccursIff(k: string, text: string)
    ensures Occurs(k, text) <==> exists i :: OccursAt(k, text, i)
  {
    if k <= text {
      assert OccursAt(k, text, 0);
    } else if text == [] {
      assert forall i :: !OccursAt(k, text, i);
    } else {
      OccursIff(k, text[1..]);
      if Occurs(k, text[1..]) {
        var j :| OccursAt(k, text[1..], j);
        assert text[1..][j..j + |k|] == text[j + 1..j + 1 + |k|];
        assert OccursAt(k, text, j + 1);
      } else {
        forall i | OccursAt(k, text, i)
          ensures false
        {
          assert i != 0;
          assert text[1..][i - 1..i - 1 + |k|] == text[i..i + |k|];
          assert OccursAt(k, text[1..], i - 1);
        }
      }
    }
  }

  /** Some keyword occurs in the (already lower-cased) text. */
  function AnyKeyword(text: string): bool
  {
    exists k | k in Keywords :: Occurs(k, text)
  }

  /** The response code of a call whose tags cell is `tags` (`None` for an empty cell). */
  function Code(tags: Option<string>): (r: string)
    ensures r == CallCode || r == ValidCallCode
    ensures tags.None? ==> r == ValidCallCode
    ensures |r| == 4
  {
    match tags
    case None => ValidCallCode
    case Some(t) => if AnyKeyword(Lower(t)) then CallCode else ValidCallCode
  }

  /** `k` occurs in `t` at position `i` when the letters of `t` are compared without case. */
  ghost predicate MatchesIgnoringCaseAt(t: string, k: string, i: int)
  {
    0 <= i && i + |k| <= |t| && forall j :: 0 <= j < |k| ==> LowerChar(t[i + j]) == k[j]
  }

  lemma OccursInLowerIff(t: string, k: string, i: int)
    ensures OccursAt(k, Lower(t), i) <==> MatchesIgnoringCaseAt(t, k, i)
  {
    if 0 <= i && i + |k| <= |t| {
      var l := Lower(t);
      if MatchesIgnoringCaseAt(t, k, i) {
        assert l[i..i + |k|] == k;
      }
      if OccursAt(k, l, i) {
        forall j | 0 <= j < |k| ensures LowerChar(t[i + j]) == k[j] {
          assert l[i..i + |k|][j] == l[i + j];
        }
      }
    }
  }

  /**
   * The code is `CALL` exactly when the tags are present and one of the four keywords
   * occurs in them, letters compared without case; otherwise it is `VCAL`.
   */
  lemma CodeIsCallIff(tags: Option<string>)
    ensures Code(tags) == CallCode <==>
      tags.Some? && exists k, i :: k in Keywords && MatchesIgnoringCaseAt(tags.value, k, i)
    ensures Code(tags) == ValidCallCode <==>
      !(tags.Some? && exists k, i :: k in Keywords && MatchesIgnoringCaseAt(tags.value, k, i))
  {
    if tags.Some? {
      var t := tags.value;
      forall k | k in Keywords ensures Occurs(k, Lower(t)) <==> exists i :: MatchesIgnoringCaseAt(t, k, i) {
        OccursIff(k, Lower(t));
        forall i ensures OccursAt(k, Lower(t), i) <==> MatchesIgnoringCaseAt(t, k, i) {
          OccursInLowerIff(t, k, i);
        }
      }
    }
  }

  /** `a` and `b` differ at most in the ASCII case of their letters. */
  ghost predicate SameIgnoringCase(a: string, b: string)
  {
    |a| == |b| && forall i :: 0 <= i < |a| ==> LowerChar(a[i]) == LowerChar(b[i])
  }

  /** Tags that differ only in ASCII letter case get the same code. */
  lemma CodeIgnoresCase(a: string, b: string)
    requires SameIgnoringCase(a, b)
    ensures Code(Some(a)) == Code(Some(b))
  {
    assert Lower(a) == Lower(b);
  }
}
