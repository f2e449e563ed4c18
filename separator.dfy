/**
 * JavaScript's `String.prototype.split` with a non-empty string separator, and
 * its inverse `Array.prototype.join`. Both `parseChallengePart` and the copy
 * text of the results view are built on these.
 */
module Separator {
  import opened Wrappers

  /** `sep` occurs in `s` starting at position `i`. */
  predicate OccursAt(s: string, sep: string, i: nat) {
    i + |sep| <= |s| && s[i..i + |sep|] == sep
  }

  /** `sep` occurs nowhere in `s`. */
  ghost predicate Free(s: string, sep: string) {
    forall i: nat :: !OccursAt(s, sep, i)
  }

  /** `sep` occurs in `s` at position `i` and nowhere else. */
  ghost predicate OccursOnlyAt(s: string, sep: string, i: nat) {
    OccursAt(s, sep, i) && forall j: nat :: j != i ==> !OccursAt(s, sep, j)
  }

  /**
   * `sep[m]` is a marker of `sep`: a character that occurs in `sep` only at
   * position `m`. A string without the marker cannot overlap an occurrence.
   */
  ghost predicate Marker(sep: string, m: nat) {
    m < |sep| && forall k :: 0 <= k < |sep| && sep[k] == sep[m] ==> k == m
  }

  /** The leftmost occurrence of `sep` in `s` at or after `from`, as `indexOf` finds it. */
  function IndexOf(s: string, sep: string, from: nat): (r: Option<nat>)
    decreases |s| - from
    ensures r.Some? ==> from <= r.value && OccursAt(s, sep, r.value)
    ensures r.Some? ==> forall j: nat :: from <= j < r.value ==> !OccursAt(s, sep, j)
    ensures r.None? ==> forall j: nat :: from <= j ==> !OccursAt(s, sep, j)
  {
    if from + |sep| > |s| then None
    else if OccursAt(s, sep, from) then Some(from)
    else IndexOf(s, sep, from + 1)
  }

  /** `s.split(sep)`: the pieces between the non-overlapping occurrences of `sep`, left to right. */
  function Split(s: string, sep: string): (pieces: seq<string>)
    requires |sep| > 0
    decreases |s|
    ensures |pieces| >= 1
    ensures forall k :: 0 <= k < |pieces| ==> Free(pieces[k], sep)
  {
    match IndexOf(s, sep, 0)
    case None => [s]
    case Some(i) =>
      PrefixBeforeFirstIsFree(s, sep, i);
      [s[..i]] + Split(s[i + |sep|..], sep)
  }

  /** `pieces.join(sep)`. */
  function Join(pieces: seq<string>, sep: string): string
  {
    if |pieces| == 0 then ""
    else if |pieces| == 1 then pieces[0]
    else pieces[0] + sep + Join(pieces[1..], sep)
  }

  /** The text before the first occurrence of `sep` contains no occurrence of it. */
  lemma PrefixBeforeFirstIsFree(s: string, sep: string, i: nat)
    requires |sep| > 0 && IndexOf(s, sep, 0) == Some(i)
    ensures Free(s[..i], sep)
  {
    forall j: nat
      ensures !OccursAt(s[..i], sep, j)
    {
      if OccursAt(s[..i], sep, j) {
        assert s[..i][j..j + |sep|] == s[j..j + |sep|];
        assert OccursAt(s, sep, j);
      }
    }
  }

  /** Joining the pieces of a split gives the original string back. */
  lemma {:induction false} JoinSplit(s: string, sep: string)
    requires |sep| > 0
    ensures Join(Split(s, sep), sep) == s
    decreases |s|
  {
    var found := IndexOf(s, sep, 0);
    if found.Some? {
      var i := found.value;
      var rest := s[i + |sep|..];
      var tail := Split(rest, sep);
      JoinSplit(rest, sep);
      assert Split(s, sep) == [s[..i]] + tail;
      calc {
        Join(Split(s, sep), sep);
        s[..i] + sep + Join(tail, sep);
        s[..i] + sep + rest;
        { assert s[i..i + |sep|] == sep; }
        s;
      }
    }
  }

  /** A string without the marker of `sep` contains no occurrence of `sep`. */
  lemma NoMarkerIsFree(s: string, sep: string, m: nat)
    requires Marker(sep, m) && sep[m] !in s
    ensures Free(s, sep)
  {
    assert forall i: nat :: !OccursAt(s, sep, i);
  }

  /**
   * When `t` does not contain the marker of `sep`, the first occurrence of
   * `sep` in `t + sep + r` is the one right after `t`.
   */
  lemma FirstOccurrenceAfter(t: string, sep: string, r: string, m: nat)
    requires Marker(sep, m) && sep[m] !in t
    ensures IndexOf(t + sep + r, sep, 0) == Some(|t|)
  {
    var s := t + sep + r;
    assert s[|t|..|t| + |sep|] == sep;
    assert OccursAt(s, sep, |t|);
    assert forall j: nat :: j < |t| ==> !OccursAt(s, sep, j);
  }

  /**
   * When neither side contains the marker of `sep`, the only occurrence of
   * `sep` in `t + sep + r` is the one between them.
   */
  lemma OnlyOccurrenceBetween(t: string, sep: string, r: string, m: nat)
    requires Marker(sep, m) && sep[m] !in t && sep[m] !in r
    ensures OccursOnlyAt(t + sep + r, sep, |t|)
  {
    var s := t + sep + r;
    FirstOccurrenceAfter(t, sep, r, m);
    assert forall j: nat :: |t| < j ==> !OccursAt(s, sep, j);
  }

  /** Splitting a string with exactly one occurrence of `sep` gives the text before and after it. */
  lemma SplitOnlyOccurrence(s: string, sep: string, i: nat)
    requires |sep| > 0 && OccursOnlyAt(s, sep, i)
    ensures Split(s, sep) == [s[..i], s[i + |sep|..]]
  {
    assert IndexOf(s, sep, 0) == Some(i);
    var rest := s[i + |sep|..];
    forall j: nat | OccursAt(rest, sep, j)
      ensures false
    {
      assert rest[j..j + |sep|] == s[i + |sep| + j..i + |sep| + j + |sep|];
      assert OccursAt(s, sep, i + |sep| + j);
    }
    assert IndexOf(rest, sep, 0) == None;
  }

  /** Splitting `t + sep + r`, with `t` marker-free, cuts `t` off first and splits `r` for the rest. */
  lemma SplitAfterFirstPiece(t: string, sep: string, r: string, m: nat)
    requires Marker(sep, m) && sep[m] !in t
    ensures Split(t + sep + r, sep) == [t] + Split(r, sep)
  {
    var s := t + sep + r;
    FirstOccurrenceAfter(t, sep, r, m);
    assert s[..|t|] == t;
    assert s[|t| + |sep|..] == r;
  }

  /** Splitting the join of marker-free pieces gives the pieces back. */
  lemma {:induction false} SplitJoin(pieces: seq<string>, sep: string, m: nat)
    requires Marker(sep, m) && |pieces| >= 1
    requires forall k :: 0 <= k < |pieces| ==> sep[m] !in pieces[k]
    ensures Split(Join(pieces, sep), sep) == pieces
    decreases |pieces|
  {
    if |pieces| == 1 {
      NoMarkerIsFree(pieces[0], sep, m);
      assert IndexOf(pieces[0], sep, 0) == None;
    } else {
      SplitAfterFirstPiece(pieces[0], sep, Join(pieces[1..], sep), m);
      SplitJoin(pieces[1..], sep, m);
      assert pieces == [pieces[0]] + pieces[1..];
    }
  }
}
