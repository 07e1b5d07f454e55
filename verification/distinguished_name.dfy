/** The lenient Distinguished-Name parser of index.js (`parseDN`): the DN
    string is cut at every comma, each piece is trimmed and cut at `=`, and
    each piece with a non-empty key and a non-empty value is stored in a flat
    attribute map, a later piece overwriting an earlier one with the same key. */
module DistinguishedName {
  import opened Options
  import opened JsString

  /** Attribute code (`CN`, `O`, ...) to value. */
  type Dn = map<string, string>

  /** A key or value as `parseDN` can produce it: non-empty and free of `=`. */
  predicate IsAttributeText(s: string) {
    s != "" && '=' !in s
  }

  /** `const [key, value] = fields` followed by `if (key && value)`: the
      first two fields, kept only when both exist and are non-empty. */
  function KeyValue(fields: seq<string>): Option<(string, string)> {
    if |fields| >= 2 && fields[0] != "" && fields[1] != "" then
      Some((fields[0], fields[1]))
    else
      None
  }

  /** One comma-separated piece: `part.trim().split('=')` destructured as
      above. The key is the text before the first `=`, the value the text
      between the first and any second `=`; whatever follows a second `=` is
      dropped, and key and value are not trimmed on their own. */
  function ParseSegment(part: string): (r: Option<(string, string)>)
    ensures r.Some? ==> IsAttributeText(r.value.0) && IsAttributeText(r.value.1)
  {
    KeyValue(Split(Trim(part), '='))
  }

  /** `t` reads `k=v`, possibly followed by more text starting with `=`. */
  predicate IsPairPrefix(t: string, k: string, v: string) {
    && IsAttributeText(k) && IsAttributeText(v)
    && |k| + 1 + |v| <= |t|
    && t[..|k| + 1 + |v|] == k + "=" + v
    && (|t| == |k| + 1 + |v| || t[|k| + 1 + |v|] == '=')
  }

  /** An accepted `[key, value]` destructuring of `t.split('=')` means `t`
      reads `key=value`, possibly followed by `=` and more text. */
  lemma KeyValueShapeSound(t: string, k: string, v: string)
    requires KeyValue(Split(t, '=')) == Some((k, v))
    ensures IsPairPrefix(t, k, v)
  {
    var fields := Split(t, '=');
    JoinSplit(t, '=');
    assert fields[0] == k && fields[1] == v;
    JoinCons(k, fields[1..], '=');
    assert fields == [k] + fields[1..];
    assert t == k + "=" + Join(fields[1..], '=');
    if |fields| > 2 {
      JoinCons(v, fields[2..], '=');
      assert fields[1..] == [v] + fields[2..];
      assert t == k + "=" + v + "=" + Join(fields[2..], '=');
    }
  }

  /** Conversely, every text reading `key=value` (possibly followed by `=`
      and more text) with a non-empty, `=`-free key and value destructures to
      exactly that pair. */
  lemma KeyValueShapeComplete(t: string, k: string, v: string)
    requires IsPairPrefix(t, k, v)
    ensures KeyValue(Split(t, '=')) == Some((k, v))
  {
    var n := |k| + 1 + |v|;
    if |t| == n {
      JoinCons(k, [v], '=');
      assert t == Join([k, v], '=');
      SplitJoin([k, v], '=');
    } else {
      var rest := Split(t[n + 1..], '=');
      JoinSplit(t[n + 1..], '=');
      JoinCons(v, rest, '=');
      JoinCons(k, [v] + rest, '=');
      assert t == t[..n] + "=" + t[n + 1..];
      var parts := [k, v] + rest;
      assert [k] + ([v] + rest) == parts;
      assert t == Join(parts, '=');
      forall i | 0 <= i < |parts|
        ensures '=' !in parts[i]
      {
        if i >= 2 {
          assert parts[i] == rest[i - 2];
        }
      }
      SplitJoin(parts, '=');
    }
  }

  /** The exact shape of an accepted piece: after trimming it reads
      `k=v`, possibly followed by further text that starts with another `=`. */
  lemma ParseSegmentSpec(part: string, k: string, v: string)
    ensures ParseSegment(part) == Some((k, v)) <==> IsPairPrefix(Trim(part), k, v)
  {
    if ParseSegment(part) == Some((k, v)) {
      KeyValueShapeSound(Trim(part), k, v);
    }
    if IsPairPrefix(Trim(part), k, v) {
      KeyValueShapeComplete(Trim(part), k, v);
    }
  }

  /** A plain `k=v` piece with no white space at its ends parses to `(k, v)`. */
  lemma ParseSegmentOfPair(k: string, v: string)
    requires IsAttributeText(k) && IsAttributeText(v)
    requires !IsWhiteSpace(k[0]) && !IsWhiteSpace(v[|v| - 1])
    ensures ParseSegment(k + "=" + v) == Some((k, v))
  {
    var s := k + "=" + v;
    TrimIsTrimmedCore(s, 0, |s|);
    assert s[..|s|] == s;
    ParseSegmentSpec(s, k, v);
  }

  /** A piece after parsing: `Some((key, value))` when it is accepted. */
  type Entry = Option<(string, string)>

  /** The pieces, each parsed on its own. */
  function Entries(parts: seq<string>): (e: seq<Entry>)
    ensures |e| == |parts|
    ensures forall i :: 0 <= i < |parts| ==> e[i] == ParseSegment(parts[i])
  {
    seq(|parts|, i requires 0 <= i < |parts| => ParseSegment(parts[i]))
  }

  /** Every key and value of the map is one `parseDN` can produce. */
  predicate WellFormed(m: Dn) {
    forall key :: key in m ==> IsAttributeText(key) && IsAttributeText(m[key])
  }

  /** The `forEach` over the pieces: each accepted piece is written into the
      accumulated object, overwriting an earlier value for the same key. */
  function Collect(entries: seq<Entry>, acc: Dn): (r: Dn)
    requires forall i :: 0 <= i < |entries| && entries[i].Some? ==>
      IsAttributeText(entries[i].value.0) && IsAttributeText(entries[i].value.1)
    requires WellFormed(acc)
    ensures acc.Keys <= r.Keys
    ensures WellFormed(r)
    decreases |entries|
  {
    if |entries| == 0 then acc
    else
      match entries[0]
      case Some((k, v)) => Collect(entries[1..], acc[k := v])
      case None => Collect(entries[1..], acc)
  }

  /** The pieces `parseDN` looks at: none for a falsy DN (absent or empty),
      otherwise the comma-separated pieces. */
  function Segments(dn: Option<string>): seq<string> {
    if Truthy(dn) then Split(dn.value, ',') else []
  }

  /** `parseDN(dn)`. */
  function ParseDN(dn: Option<string>): (r: Dn)
    ensures !Truthy(dn) ==> r == map[]
    ensures WellFormed(r)
  {
    if !Truthy(dn) then map[] else Collect(Entries(Segments(dn)), map[])
  }

  /** Reference definition of "last occurrence wins": the value of the
      right-most accepted entry with key `key`, scanning from the end. */
  function LastValue(entries: seq<Entry>, key: string): Option<string>
    decreases |entries|
  {
    if |entries| == 0 then None
    else
      match entries[|entries| - 1]
      case Some((k, v)) =>
        if k == key then Some(v) else LastValue(entries[..|entries| - 1], key)
      case None => LastValue(entries[..|entries| - 1], key)
  }

  /** Whether the entry is accepted with key `key`. */
  predicate HasKey(e: Entry, key: string) {
    e.Some? && e.value.0 == key
  }

  /** `LastValue` peeled from the front: the rest of the list wins if it has
      the key at all, otherwise the first entry decides. */
  lemma {:induction false} LastValueFront(entries: seq<Entry>, key: string)
    requires |entries| >= 1
    ensures LastValue(entries, key) ==
      if LastValue(entries[1..], key).Some? then LastValue(entries[1..], key)
      else if HasKey(entries[0], key) then Some(entries[0].value.1)
      else None
    decreases |entries|
  {
    if |entries| > 1 {
      var init := entries[..|entries| - 1];
      assert init[1..] == entries[1..][..|entries[1..]| - 1];
      assert entries[1..][|entries[1..]| - 1] == entries[|entries| - 1];
      assert init[0] == entries[0];
      LastValueFront(init, key);
    }
  }

  /** The left-to-right overwriting fold agrees with the right-to-left
      reference: a key ends up in the map exactly when some entry (or the
      initial map) has it, and its value comes from the last such entry. */
  lemma {:induction false} CollectLastWins(entries: seq<Entry>, acc: Dn, key: string)
    requires forall i :: 0 <= i < |entries| && entries[i].Some? ==>
      IsAttributeText(entries[i].value.0) && IsAttributeText(entries[i].value.1)
    requires WellFormed(acc)
    ensures key in Collect(entries, acc) <==> LastValue(entries, key).Some? || key in acc
    ensures key in Collect(entries, acc) ==>
      Collect(entries, acc)[key] ==
        if LastValue(entries, key).Some? then LastValue(entries, key).value else acc[key]
    decreases |entries|
  {
    if |entries| > 0 {
      LastValueFront(entries, key);
      match entries[0]
      case Some((k, v)) =>
        CollectLastWins(entries[1..], acc[k := v], key);
      case None =>
        CollectLastWins(entries[1..], acc, key);
    }
  }

  /** `LastValue` in words: `v` is the value of some entry with key `key`,
      and no later entry has that key. */
  lemma {:induction false} LastValueSpec(entries: seq<Entry>, key: string, v: string)
    ensures LastValue(entries, key) == Some(v) <==>
      exists i :: 0 <= i < |entries| && entries[i] == Some((key, v))
        && forall j :: i < j < |entries| ==> !HasKey(entries[j], key)
    decreases |entries|
  {
    if |entries| > 0 {
      var n := |entries| - 1;
      var init := entries[..n];
      LastValueSpec(init, key, v);
      if LastValue(entries, key) == Some(v) {
        if !HasKey(entries[n], key) {
          var i :| 0 <= i < |init| && init[i] == Some((key, v))
            && forall j :: i < j < |init| ==> !HasKey(init[j], key);
          assert entries[i] == init[i];
          assert forall j :: i < j < |entries| ==> !HasKey(entries[j], key) by {
            forall j | i < j < |entries| ensures !HasKey(entries[j], key) {
              if j < n {
                assert entries[j] == init[j];
              }
            }
          }
        }
      }
      if exists i :: (0 <= i < |entries| && entries[i] == Some((key, v))
        && forall j :: i < j < |entries| ==> !HasKey(entries[j], key))
      {
        var i :| 0 <= i < |entries| && entries[i] == Some((key, v))
          && forall j :: i < j < |entries| ==> !HasKey(entries[j], key);
        if i < n {
          assert !HasKey(entries[n], key);
          assert init[i] == entries[i];
          assert forall j :: i < j < |init| ==> !HasKey(init[j], key) by {
            forall j | i < j < |init| ensures !HasKey(init[j], key) {
              assert init[j] == entries[j];
            }
          }
        }
      }
    }
  }

  /** `parseDN` is the overwriting fold over the parsed pieces of the DN. */
  lemma ParseDNLastValue(dn: Option<string>, key: string)
    ensures key in ParseDN(dn) <==> LastValue(Entries(Segments(dn)), key).Some?
    ensures key in ParseDN(dn) ==> ParseDN(dn)[key] == LastValue(Entries(Segments(dn)), key).value
  {
    if Truthy(dn) {
      CollectLastWins(Entries(Segments(dn)), map[], key);
    }
  }

  /** `parseDN` keeps, for each key, the value of its last accepted piece:
      `dn` maps `key` to `v` exactly when some comma-separated piece of `dn`
      parses to `(key, v)` (the piece's entry, see `Entries`) and no later
      piece parses with the same key. */
  lemma ParseDNLastWins(dn: Option<string>, key: string, v: string)
    ensures (key in ParseDN(dn) && ParseDN(dn)[key] == v) <==>
      exists i :: 0 <= i < |Entries(Segments(dn))| && Entries(Segments(dn))[i] == Some((key, v))
        && forall j :: i < j < |Entries(Segments(dn))| ==> !HasKey(Entries(Segments(dn))[j], key)
  {
    ParseDNLastValue(dn, key);
    LastValueSpec(Entries(Segments(dn)), key, v);
  }
}
