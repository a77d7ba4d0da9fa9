/** The string step of the front end's `parseTimestamp` (frontend/scripts.js):
    a timestamp such as "2025-04-16 19:23:00 UTC" has its first " UTC"
    replaced by "Z" before it is handed to the `Date` constructor. */
module IsoTimestamp {
  import opened Wrappers

  /** `pat` occurs in `s` starting at position `k`. */
  predicate OccursAt(s: string, pat: string, k: int)
  {
    0 <= k && k + |pat| <= |s| && s[k..k + |pat|] == pat
  }

  /** `k` is the first position at which `pat` occurs in `s`. */
  predicate FirstOccursAt(s: string, pat: string, k: int)
  {
    OccursAt(s, pat, k) && forall j :: 0 <= j < k ==> !OccursAt(s, pat, j)
  }

  /** `String.prototype.indexOf(pat, from)`: the first position at or after
      `from` where `pat` occurs, `None` for JavaScript's -1. */
  function IndexOfFrom(s: string, pat: string, from: nat): (r: Option<nat>)
    ensures r.Some? ==> from <= r.value && OccursAt(s, pat, r.value)
    ensures r.Some? ==> forall j :: from <= j < r.value ==> !OccursAt(s, pat, j)
    ensures r.None? ==> forall j :: from <= j ==> !OccursAt(s, pat, j)
    decreases |s| - from
  {
    if from + |pat| > |s| then None
    else if s[from..from + |pat|] == pat then Some(from)
    else IndexOfFrom(s, pat, from + 1)
  }

  /** `s.replace(pat, rep)` with a string pattern: only the first occurrence
      is replaced, and text without an occurrence comes back unchanged. (The
      `$` patterns JavaScript honours in `rep` do not arise: the one
      replacement used is "Z".) */
  function ReplaceFirst(s: string, pat: string, rep: string): (r: string)
    ensures (forall j :: !OccursAt(s, pat, j)) ==> r == s
    ensures forall k :: FirstOccursAt(s, pat, k) ==> r == s[..k] + rep + s[k + |pat|..]
  {
    match IndexOfFrom(s, pat, 0)
    case None => s
    case Some(k) => s[..k] + rep + s[k + |pat|..]
  }

  /** The zone marker of the stored timestamps, and the ISO 8601 designator
      that replaces it. */
  const Utc: string := " UTC"
  const Zulu: string := "Z"

  /** `timestamp.replace(" UTC", "Z")`, the string handed to `new Date`. */
  function IsoString(timestamp: string): (iso: string)
    ensures (forall j :: !OccursAt(timestamp, Utc, j)) ==> iso == timestamp
    ensures forall k :: FirstOccursAt(timestamp, Utc, k) ==>
              iso == timestamp[..k] + Zulu + timestamp[k + |Utc|..] && |iso| == |timestamp| - 3
  {
    ReplaceFirst(timestamp, Utc, Zulu)
  }

  /** " UTC" occurs at most once in `s`. */
  ghost predicate AtMostOneUtc(s: string)
  {
    forall i, j :: OccursAt(s, Utc, i) && OccursAt(s, Utc, j) ==> i == j
  }

  /** " UTC" at position `j`, character by character. */
  lemma UtcAt(s: string, j: int)
    ensures OccursAt(s, Utc, j) <==>
              0 <= j && j + 4 <= |s| && s[j] == ' ' && s[j + 1] == 'U' && s[j + 2] == 'T' && s[j + 3] == 'C'
  {
  }

  /** The characters of the text after the " UTC" at `k` is replaced by "Z". */
  lemma Spliced(s: string, k: nat, r: string)
    requires k + 4 <= |s| && r == s[..k] + Zulu + s[k + 4..]
    ensures |r| == |s| - 3
    ensures forall x :: 0 <= x < k ==> r[x] == s[x]
    ensures r[k] == 'Z'
    ensures forall x :: k < x < |r| ==> r[x] == s[x + 3]
  {
  }

  /** The timestamp format the comment above `parseTimestamp` documents is
      rewritten into ISO 8601 form; the space between date and time stays. */
  lemma DocumentedExample()
    ensures IsoString("2025-04-16 19:23:00 UTC") == "2025-04-16 19:23:00Z"
  {
    var s := "2025-04-16 19:23:00 UTC";
    UtcAt(s, 19);
    forall j | 0 <= j < 19
      ensures !OccursAt(s, Utc, j)
    {
      UtcAt(s, j);
    }
    assert FirstOccursAt(s, Utc, 19);
    assert s[..19] + Zulu + s[23..] == "2025-04-16 19:23:00Z";
  }

  /** After the rewrite of a text holding " UTC" at most once, no " UTC" is
      left: the "Z" cannot be part of one, the text before was free of it,
      and so was the text after. */
  lemma NoUtcAfterRewrite(s: string)
    requires AtMostOneUtc(s)
    ensures forall j :: !OccursAt(IsoString(s), Utc, j)
  {
    var r := IsoString(s);
    var found := IndexOfFrom(s, Utc, 0);
    if found.Some? {
      var k := found.value;
      assert FirstOccursAt(s, Utc, k);
      Spliced(s, k, r);
      forall j
        ensures !OccursAt(r, Utc, j)
      {
        UtcAt(r, j);
        if 0 <= j && j + 4 <= |r| {
          if j + 3 < k {
            UtcAt(s, j);
          } else if k < j {
            UtcAt(s, j + 3);
          }
        }
      }
    }
  }

  /** On texts holding " UTC" at most once, rewriting twice is rewriting once. */
  lemma IsoStringIdempotent(s: string)
    requires AtMostOneUtc(s)
    ensures IsoString(IsoString(s)) == IsoString(s)
  {
    NoUtcAfterRewrite(s);
  }

  /** Only the first occurrence is replaced: a later " UTC" survives, three
      characters further left, so a second rewrite would change the text
      again. */
  lemma {:induction false} OnlyFirstReplaced(s: string, i: nat, j: nat)
    requires i < j && OccursAt(s, Utc, i) && OccursAt(s, Utc, j)
    ensures OccursAt(IsoString(s), Utc, j - 3)
    ensures IsoString(IsoString(s)) != IsoString(s)
  {
    var found := IndexOfFrom(s, Utc, 0);
    assert found.Some?;
    var k := found.value;
    assert FirstOccursAt(s, Utc, k);
    assert k <= i;
    var r := IsoString(s);
    Spliced(s, k, r);
    UtcAt(s, k);
    UtcAt(s, j);
    assert k < j && s[j] == ' ';
    assert s[k + 1] != ' ' && s[k + 2] != ' ' && s[k + 3] != ' ';
    assert j != k + 1 && j != k + 2 && j != k + 3;
    UtcAt(r, j - 3);
    assert OccursAt(r, Utc, j - 3);
    SecondRewriteShortens(r, j - 3);
  }

  /** A text that still holds " UTC" is shortened by a rewrite. */
  lemma SecondRewriteShortens(r: string, p: nat)
    requires OccursAt(r, Utc, p)
    ensures IsoString(r) != r
  {
  }
}
