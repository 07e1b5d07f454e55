/** The three JavaScript string primitives the DN parser is built from:
    `String.prototype.split` with a one-character separator, its inverse
    `Array.prototype.join`, and `String.prototype.trim`. */
module JsString {

  /** Index of the first occurrence of `c` in `s`. */
  function IndexOf(s: string, c: char): (i: nat)
    requires c in s
    ensures i < |s| && s[i] == c
    ensures c !in s[..i]
  {
    if s[0] == c then 0
    else
      assert s == [s[0]] + s[1..];
      1 + IndexOf(s[1..], c)
  }

  /** `parts.join(sep)`: the parts with one separator between neighbours. */
  function Join(parts: seq<string>, sep: char): string
  {
    if |parts| == 0 then ""
    else if |parts| == 1 then parts[0]
    else parts[0] + [sep] + Join(parts[1..], sep)
  }

  /** `s.split(sep)`: the maximal separator-free pieces of `s`, in order. An
      empty string splits into one empty piece, and a separator at either end
      or two adjacent separators produce empty pieces. */
  function Split(s: string, sep: char): (parts: seq<string>)
    ensures |parts| >= 1
    ensures forall i :: 0 <= i < |parts| ==> sep !in parts[i]
    decreases |s|
  {
    if sep !in s then [s]
    else
      var i := IndexOf(s, sep);
      [s[..i]] + Split(s[i + 1..], sep)
  }

  /** Joining a first piece onto the join of the others. */
  lemma {:induction false} JoinCons(p: string, rest: seq<string>, sep: char)
    requires |rest| >= 1
    ensures Join([p] + rest, sep) == p + [sep] + Join(rest, sep)
  {
    assert ([p] + rest)[1..] == rest;
  }

  /** Joining undoes splitting: the pieces with the separator put back
      between them are the original string. */
  lemma {:induction false} JoinSplit(s: string, sep: char)
    ensures Join(Split(s, sep), sep) == s
    decreases |s|
  {
    if sep in s {
      var i := IndexOf(s, sep);
      var rest := Split(s[i + 1..], sep);
      JoinSplit(s[i + 1..], sep);
      JoinCons(s[..i], rest, sep);
      assert s == s[..i] + [sep] + s[i + 1..];
    }
  }

  /** A separator-free first piece followed by the separator is split off
      as the first part. */
  lemma SplitAfterPiece(p: string, t: string, sep: char)
    requires sep !in p
    ensures Split(p + [sep] + t, sep) == [p] + Split(t, sep)
  {
    var s := p + [sep] + t;
    assert s[|p|] == sep;
    assert s[..|p|] == p;
    assert IndexOf(s, sep) == |p|;
    assert s[|p| + 1..] == t;
  }

  /** Splitting undoes joining: a non-empty list of separator-free pieces is
      recovered from its join. Together with `JoinSplit` this makes `Split`
      and `Join` mutually inverse. */
  lemma {:induction false} SplitJoin(parts: seq<string>, sep: char)
    requires |parts| >= 1
    requires forall i :: 0 <= i < |parts| ==> sep !in parts[i]
    ensures Split(Join(parts, sep), sep) == parts
    decreases |parts|
  {
    if |parts| == 1 {
      assert sep !in parts[0];
    } else {
      var p := parts[0];
      assert sep !in p;
      assert Join(parts, sep) == p + [sep] + Join(parts[1..], sep);
      SplitAfterPiece(p, Join(parts[1..], sep), sep);
      SplitJoin(parts[1..], sep);
      assert parts == [p] + parts[1..];
    }
  }

  /** The characters `trim` removes: ECMAScript's WhiteSpace (tab, vertical
      tab, form feed, space, no-break space, zero-width no-break space and the
      Unicode space separators) and LineTerminator (LF, CR, LS, PS). */
  predicate IsWhiteSpace(c: char) {
    || c == '\t' || c == '\U{000B}' || c == '\U{000C}' || c == ' '
    || c == '\U{00A0}' || c == '\U{FEFF}' || c == '\U{1680}'
    || ('\U{2000}' <= c <= '\U{200A}')
    || c == '\U{202F}' || c == '\U{205F}' || c == '\U{3000}'
    || c == '\n' || c == '\r' || c == '\U{2028}' || c == '\U{2029}'
  }

  /** `s` with its leading white space removed. */
  function TrimStart(s: string): (r: string)
    ensures |r| <= |s|
  {
    if |s| > 0 && IsWhiteSpace(s[0]) then TrimStart(s[1..]) else s
  }

  /** `TrimStart` drops exactly the leading white space: what it returns is
      a suffix of `s`, everything before it is white space, and it does not
      itself start with white space. */
  lemma {:induction false} TrimStartSpec(s: string)
    ensures TrimStart(s) == s[|s| - |TrimStart(s)|..]
    ensures forall k :: 0 <= k < |s| - |TrimStart(s)| ==> IsWhiteSpace(s[k])
    ensures TrimStart(s) == [] || !IsWhiteSpace(TrimStart(s)[0])
  {
    if |s| > 0 && IsWhiteSpace(s[0]) {
      TrimStartSpec(s[1..]);
    }
  }

  /** `s` with its trailing white space removed. */
  function TrimEnd(s: string): (r: string)
    ensures |r| <= |s|
  {
    if |s| > 0 && IsWhiteSpace(s[|s| - 1]) then TrimEnd(s[..|s| - 1]) else s
  }

  /** `TrimEnd` drops exactly the trailing white space. */
  lemma {:induction false} TrimEndSpec(s: string)
    ensures TrimEnd(s) == s[..|TrimEnd(s)|]
    ensures forall k :: |TrimEnd(s)| <= k < |s| ==> IsWhiteSpace(s[k])
    ensures TrimEnd(s) == [] || !IsWhiteSpace(TrimEnd(s)[|TrimEnd(s)| - 1])
  {
    if |s| > 0 && IsWhiteSpace(s[|s| - 1]) {
      TrimEndSpec(s[..|s| - 1]);
    }
  }

  /** `s.trim()`. */
  function Trim(s: string): (r: string)
    ensures |r| <= |s|
  {
    TrimEnd(TrimStart(s))
  }

  /** `s[i..j]` is what trimming `s` leaves: only white space lies outside it,
      and it neither starts nor ends with white space. */
  ghost predicate IsTrimmedCore(s: string, i: nat, j: nat) {
    && i <= j <= |s|
    && (forall k :: 0 <= k < i ==> IsWhiteSpace(s[k]))
    && (forall k :: j <= k < |s| ==> IsWhiteSpace(s[k]))
    && (i == j || (!IsWhiteSpace(s[i]) && !IsWhiteSpace(s[j - 1])))
  }

  /** `Trim` removes exactly the white space at both ends and nothing else:
      any infix of `s` that is a trimmed core is `Trim(s)`. */
  lemma TrimIsTrimmedCore(s: string, i: nat, j: nat)
    requires IsTrimmedCore(s, i, j)
    ensures Trim(s) == s[i..j]
  {
    var t := TrimStart(s);
    var a := |s| - |t|;
    TrimStartSpec(s);
    TrimEndSpec(t);
    if i < j {
      // the first non-white character of s is at i, the last at j - 1
      assert a == i;
      var u := TrimEnd(t);
      assert i + |u| == j;
    } else {
      // s is white space throughout
      assert TrimEnd(t) == [];
    }
  }

  /** Conversely, what `Trim` keeps is a trimmed core of `s`: it starts after
      the leading white space and is followed only by white space. */
  lemma TrimHasTrimmedCore(s: string)
    ensures IsTrimmedCore(s, |s| - |TrimStart(s)|, |s| - |TrimStart(s)| + |Trim(s)|)
  {
    TrimStartSpec(s);
    TrimEndSpec(TrimStart(s));
  }

  /** Trimming twice is trimming once. */
  lemma TrimIdempotent(s: string)
    ensures Trim(Trim(s)) == Trim(s)
  {
    var t := Trim(s);
    TrimStartSpec(s);
    TrimEndSpec(TrimStart(s));
    TrimIsTrimmedCore(t, 0, |t|);
  }
}
