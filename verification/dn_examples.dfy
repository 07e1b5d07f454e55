/** Worked examples of `parseDN` on concrete DN strings. Each
    example is split into the pieces of the DN, the entry of each piece, and the
    overwriting fold, so that every step stays small for the solver. */
module DnExamples {
  import opened Options
  import opened JsString
  import opened DistinguishedName

  /** The comma-separated pieces of a DN written as the join of `parts`. */
  lemma SegmentsOfJoin(dn: string, parts: seq<string>)
    requires |parts| >= 1 && dn != ""
    requires forall i :: 0 <= i < |parts| ==> ',' !in parts[i]
    requires Join(parts, ',') == dn
    ensures Segments(Some(dn)) == parts
  {
    SplitJoin(parts, ',');
  }

  /** The entries of a three-piece list, piece by piece. */
  lemma EntriesOfThree(p1: string, p2: string, p3: string)
    ensures Entries([p1, p2, p3]) == [ParseSegment(p1), ParseSegment(p2), ParseSegment(p3)]
  {
  }

  /** The entries of a two-piece list, piece by piece. */
  lemma EntriesOfTwo(p1: string, p2: string)
    ensures Entries([p1, p2]) == [ParseSegment(p1), ParseSegment(p2)]
  {
  }

  lemma PieceCnAlice()
    ensures ParseSegment("CN=Alice") == Some(("CN", "Alice"))
  {
    ParseSegmentOfPair("CN", "Alice");
    assert "CN" + "=" + "Alice" == "CN=Alice";
  }

  lemma PieceOBank()
    ensures ParseSegment("O=Bank") == Some(("O", "Bank"))
  {
    ParseSegmentOfPair("O", "Bank");
    assert "O" + "=" + "Bank" == "O=Bank";
  }

  lemma PieceCnBob()
    ensures ParseSegment("CN=Bob") == Some(("CN", "Bob"))
  {
    ParseSegmentOfPair("CN", "Bob");
    assert "CN" + "=" + "Bob" == "CN=Bob";
  }

  /** A piece without `=` is skipped. */
  lemma PieceWithoutEquals()
    ensures ParseSegment("BAD") == None
  {
    TrimIsTrimmedCore("BAD", 0, 3);
    SplitJoin(["BAD"], '=');
  }

  lemma SegmentsExample()
    ensures Segments(Some("CN=Alice,O=Bank")) == ["CN=Alice", "O=Bank"]
  {
    JoinCons("CN=Alice", ["O=Bank"], ',');
    SegmentsOfJoin("CN=Alice,O=Bank", ["CN=Alice", "O=Bank"]);
  }

  lemma EntriesExample()
    ensures Entries(["CN=Alice", "O=Bank"]) == [Some(("CN", "Alice")), Some(("O", "Bank"))]
  {
    EntriesOfTwo("CN=Alice", "O=Bank");
    PieceCnAlice();
    PieceOBank();
  }

  /** `parseDN("CN=Alice,O=Bank")` is `{CN: "Alice", O: "Bank"}`. */
  lemma ParseDNExample()
    ensures ParseDN(Some("CN=Alice,O=Bank")) == map["CN" := "Alice", "O" := "Bank"]
  {
    SegmentsExample();
    EntriesExample();
  }

  lemma SegmentsMalformed()
    ensures Segments(Some("CN=Alice,BAD,O=Bank")) == ["CN=Alice", "BAD", "O=Bank"]
  {
    JoinCons("BAD", ["O=Bank"], ',');
    JoinCons("CN=Alice", ["BAD", "O=Bank"], ',');
    SegmentsOfJoin("CN=Alice,BAD,O=Bank", ["CN=Alice", "BAD", "O=Bank"]);
  }

  lemma EntriesMalformed()
    ensures Entries(["CN=Alice", "BAD", "O=Bank"]) == [Some(("CN", "Alice")), None, Some(("O", "Bank"))]
  {
    EntriesOfThree("CN=Alice", "BAD", "O=Bank");
    PieceCnAlice();
    PieceWithoutEquals();
    PieceOBank();
  }

  /** A malformed middle piece is skipped:
      `parseDN("CN=Alice,BAD,O=Bank")` is `{CN: "Alice", O: "Bank"}`. */
  lemma ParseDNSkipsMalformed()
    ensures ParseDN(Some("CN=Alice,BAD,O=Bank")) == map["CN" := "Alice", "O" := "Bank"]
  {
    SegmentsMalformed();
    EntriesMalformed();
  }

  lemma SegmentsDuplicate()
    ensures Segments(Some("CN=Alice,CN=Bob")) == ["CN=Alice", "CN=Bob"]
  {
    JoinCons("CN=Alice", ["CN=Bob"], ',');
    SegmentsOfJoin("CN=Alice,CN=Bob", ["CN=Alice", "CN=Bob"]);
  }

  lemma EntriesDuplicate()
    ensures Entries(["CN=Alice", "CN=Bob"]) == [Some(("CN", "Alice")), Some(("CN", "Bob"))]
  {
    EntriesOfTwo("CN=Alice", "CN=Bob");
    PieceCnAlice();
    PieceCnBob();
  }

  /** With a repeated key the later value wins:
      `parseDN("CN=Alice,CN=Bob")` is `{CN: "Bob"}`. */
  lemma ParseDNDuplicateKey()
    ensures ParseDN(Some("CN=Alice,CN=Bob")) == map["CN" := "Bob"]
  {
    SegmentsDuplicate();
    EntriesDuplicate();
    CollectDuplicate();
  }

  lemma CollectDuplicate()
    ensures Collect([Some(("CN", "Alice")), Some(("CN", "Bob"))], map[]) == map["CN" := "Bob"]
  {
    assert map["CN" := "Alice"]["CN" := "Bob"] == map["CN" := "Bob"];
  }

  /** Only the whole piece is trimmed: white space around the `=` stays part
      of the key and the value, so `parseDN(" CN = Alice ")` is
      `{"CN ": " Alice"}`. */
  lemma ParseDNKeepsInnerSpaces()
    ensures ParseDN(Some(" CN = Alice ")) == map["CN " := " Alice"]
  {
    var s := " CN = Alice ";
    SegmentsOfJoin(s, [s]);
    PieceWithInnerSpaces();
  }

  lemma PieceWithInnerSpaces()
    ensures ParseSegment(" CN = Alice ") == Some(("CN ", " Alice"))
  {
    var s := " CN = Alice ";
    TrimIsTrimmedCore(s, 1, |s| - 1);
    assert s[1..|s| - 1] == "CN = Alice";
    KeyValueShapeComplete("CN = Alice", "CN ", " Alice");
  }

  /** Text after a second `=` is dropped: `parseDN("CN=a=b")` is `{CN: "a"}`. */
  lemma ParseDNDropsAfterSecondEquals()
    ensures ParseDN(Some("CN=a=b")) == map["CN" := "a"]
  {
    var s := "CN=a=b";
    SegmentsOfJoin(s, [s]);
    PieceWithTwoEquals();
  }

  lemma PieceWithTwoEquals()
    ensures ParseSegment("CN=a=b") == Some(("CN", "a"))
  {
    var s := "CN=a=b";
    TrimIsTrimmedCore(s, 0, |s|);
    assert s[0..|s|] == s;
    KeyValueShapeComplete(s, "CN", "a");
  }
}
