/** The three places that cut text to a byte limit and then drop what the cut broke. */
module Truncation {
  import opened Prelude
  import opened Utf8

  /** The text "...stringLengthTooLong". */
  const FIXED_STRING_SUFFIX: Bytes :=
    [0x2E, 0x2E, 0x2E, 0x73, 0x74, 0x72, 0x69, 0x6E, 0x67, 0x4C, 0x65,
     0x6E, 0x67, 0x74, 0x68, 0x54, 0x6F, 0x6F, 0x4C, 0x6F, 0x6E, 0x67]

  const DEFAULT_MAX_STRING_LENGTH := 32766

  const DESCRIPTION_MAX_LENGTH := 32

  const MAX_METHOD_LENGTH := 64

  // ----- oteltrpc/traces/trace.go

  predicate IsStringTooLong(s: Bytes, maxStringLength: int) {
    |s| > maxStringLength
  }

  /** None is a slice bound out of range, which panics. */
  function FixStringTooLong(s: Bytes, maxStringLength: int): (r: Option<Bytes>) {
    if IsStringTooLong(s, maxStringLength) then
      var cut := maxStringLength - |FIXED_STRING_SUFFIX|;
      if cut < 0 then None else Some(ToValid(s[..cut] + FIXED_STRING_SUFFIX))
    else Some(s)
  }

  lemma SuffixText()
    ensures FIXED_STRING_SUFFIX == Text("...stringLengthTooLong")
  {}

  /** It panics on exactly the over-long strings under a limit shorter than the suffix. */
  lemma FixPanicsIff(s: Bytes, maxStringLength: int)
    ensures FixStringTooLong(s, maxStringLength).None? <==> maxStringLength < 22 && |s| > maxStringLength
  {
    assert |FIXED_STRING_SUFFIX| == 22;
  }

  lemma LongestIsValid(s: Bytes, n: nat, m: nat)
    requires n <= |s| && LongestWithin(s, n, m)
    ensures m <= n && Valid(s[..m])
  {}

  /** An over-long valid string becomes its longest whole-code-point prefix that leaves room for the suffix, then the
      suffix; the result is valid and within the limit. */
  lemma FixKeepsLongestPrefix(s: Bytes, maxStringLength: int) returns (m: nat)
    requires Valid(s) && maxStringLength >= 22 && |s| > maxStringLength
    ensures LongestWithin(s, maxStringLength - 22, m)
    ensures FixStringTooLong(s, maxStringLength) == Some(s[..m] + Text("...stringLengthTooLong"))
    ensures Valid(s[..m] + FIXED_STRING_SUFFIX) && |s[..m] + FIXED_STRING_SUFFIX| <= maxStringLength
  {
    hide Valid, ToValid, LongestWithin;
    SuffixText();
    m := CutKeepsWholeCodePoints(s, maxStringLength - 22, FIXED_STRING_SUFFIX);
    AsciiKept(FIXED_STRING_SUFFIX);
    assert Valid(s[..m]) && m <= maxStringLength - 22 by {
      LongestIsValid(s, maxStringLength - 22, m);
    }
    ValidConcat(s[..m], FIXED_STRING_SUFFIX);
  }

  /** Whatever bytes come in, an over-long string comes out valid and within the limit. */
  lemma FixAlwaysValid(s: Bytes, maxStringLength: int)
    requires maxStringLength >= 22 && |s| > maxStringLength
    ensures var r := FixStringTooLong(s, maxStringLength); r.Some? && Valid(r.value) && |r.value| <= maxStringLength
  {
    ToValidIsValid(s[..maxStringLength - 22] + FIXED_STRING_SUFFIX);
  }

  /** Exactly the strings within the limit come back as they are. */
  lemma FixUnchangedIff(s: Bytes, maxStringLength: int)
    ensures FixStringTooLong(s, maxStringLength) == Some(s) <==> |s| <= maxStringLength
  {
    FixPanicsIff(s, maxStringLength);
    if maxStringLength >= 22 && |s| > maxStringLength {
      FixAlwaysValid(s, maxStringLength);
    }
  }

  /** The limit is a package variable. */
  class StringLimit {
    var maxStringLength: int

    constructor ()
      ensures maxStringLength == DEFAULT_MAX_STRING_LENGTH == 32766
    {
      maxStringLength := DEFAULT_MAX_STRING_LENGTH;
    }

    /** The limit can only be lowered below the default; values above it are ignored. */
    method SetMaxStringLength(limit: int)
      requires maxStringLength <= DEFAULT_MAX_STRING_LENGTH
      modifies this
      ensures maxStringLength == if limit <= DEFAULT_MAX_STRING_LENGTH then limit else old(maxStringLength)
      ensures maxStringLength <= DEFAULT_MAX_STRING_LENGTH
    {
      if limit > DEFAULT_MAX_STRING_LENGTH {
        return;
      }
      maxStringLength := limit;
    }
  }

  // ----- cutting without a suffix

  function Min(a: nat, b: nat): (r: nat) {
    if a < b then a else b
  }

  function CutTo(s: Bytes, limit: nat): (r: Bytes) {
    ToValid(if |s| > limit then s[..limit] else s)
  }

  /** The result is valid and within the limit; valid text keeps its longest whole-code-point prefix. */
  lemma CutToLongest(s: Bytes, limit: nat)
    ensures Valid(CutTo(s, limit)) && |CutTo(s, limit)| <= limit
    ensures Valid(s) ==> exists m: nat :: LongestWithin(s, Min(|s|, limit), m) && CutTo(s, limit) == s[..m]
  {
    var n := Min(|s|, limit);
    assert s[..|s|] == s;
    ToValidIsValid(s[..n]);
    if Valid(s) {
      var m := CutKeepsWholeCodePoints(s, n, []);
      assert s[..n] + [] == s[..n] && s[..m] + [] == s[..m];
    }
  }

  /** Exactly the valid text within the limit is left alone. */
  lemma CutUnchangedIff(s: Bytes, limit: nat)
    ensures CutTo(s, limit) == s <==> Valid(s) && |s| <= limit
  {
    CutToLongest(s, limit);
    if |s| <= limit {
      ToValidIsValid(s);
    }
  }

  /** config/codes/code.go */
  function LegalizeDescription(description: Bytes): (r: Bytes) {
    CutTo(description, DESCRIPTION_MAX_LENGTH)
  }

  // ----- sdk/metric/utility.go

  predicate HasPrefix(s: Bytes, p: Bytes) {
    p <= s
  }

  /** The position of the first '?', if there is one. */
  function IndexQuery(s: Bytes): (r: Option<nat>)
    ensures r.Some? ==> r.value < |s| && s[r.value] == 0x3F && 0x3F !in s[..r.value]
    ensures r.None? ==> 0x3F !in s
  {
    if s == [] then None
    else if s[0] == 0x3F then Some(0)
    else
      match IndexQuery(s[1..])
      case None => None
      case Some(i) => assert s[..i + 1] == [s[0]] + s[1..][..i]; Some(i + 1)
  }

  /** `pattern` looks a path up in the registered mappings. */
  function CleanRPCMethod(name: Bytes, pattern: Bytes -> Option<Bytes>): (r: Bytes) {
    if name == [] then [0x2D]
    else if HasPrefix(name, [0x2F, 0x30, 0x78]) then ToValid(name)
    else if name[0] == 0x2F then
      var idx := IndexQuery(name);
      var path := if idx.Some? && idx.value > 0 then name[..idx.value] else name;
      match pattern(path)
      case Some(v) => ToValid(v)
      case None => DEFAULT_PATTERN_METHOD
    else CutTo(name, MAX_METHOD_LENGTH)
  }

  /** The text "default_pattern_method". */
  const DEFAULT_PATTERN_METHOD: Bytes :=
    [0x64, 0x65, 0x66, 0x61, 0x75, 0x6C, 0x74, 0x5F, 0x70, 0x61, 0x74,
     0x74, 0x65, 0x72, 0x6E, 0x5F, 0x6D, 0x65, 0x74, 0x68, 0x6F, 0x64]

  /** A description and a method name that is not a path keep the longest whole-code-point prefix of at most 32 and
      64 bytes. */
  lemma DescriptionsAndMethodsCut(text: Bytes, pattern: Bytes -> Option<Bytes>)
    requires Valid(text)
    ensures exists m: nat :: LongestWithin(text, Min(|text|, 32), m) && LegalizeDescription(text) == text[..m]
    ensures text != [] && text[0] != 0x2F ==>
      exists m: nat :: LongestWithin(text, Min(|text|, 64), m) && CleanRPCMethod(text, pattern) == text[..m]
  {
    CutToLongest(text, 32);
    CutToLongest(text, 64);
    hide ToValid, Valid, LongestWithin;
  }

  lemma DefaultText()
    ensures DEFAULT_PATTERN_METHOD == Text("default_pattern_method")
  {}

  /** No name is a dash, and a valid one that begins with /0x stays as it is, however long. */
  lemma NamesKept(name: Bytes, pattern: Bytes -> Option<Bytes>)
    requires Valid(name)
    ensures CleanRPCMethod([], pattern) == Text("-")
    ensures HasPrefix(name, Text("/0x")) ==> CleanRPCMethod(name, pattern) == name
  {
    assert Text("-") == [0x2D] && Text("/0x") == [0x2F, 0x30, 0x78];
    ToValidIsValid(name);
  }

  lemma ConstantsValid()
    ensures Valid(DEFAULT_PATTERN_METHOD) && Valid([0x2D])
  {
    hide Valid, ToValid;
    AsciiKept(DEFAULT_PATTERN_METHOD);
    AsciiKept([0x2D]);
  }

  /** The cleaned name is valid UTF-8 whatever comes in. */
  lemma CleanedMethodValid(name: Bytes, pattern: Bytes -> Option<Bytes>)
    ensures Valid(CleanRPCMethod(name, pattern))
  {
    hide ToValid, Valid, Width;
    ConstantsValid();
    ToValidIsValid(name);
    CutToLongest(name, MAX_METHOD_LENGTH);
    var idx := IndexQuery(name);
    var found := pattern(if idx.Some? && idx.value > 0 then name[..idx.value] else name);
    if found.Some? {
      ToValidIsValid(found.value);
    }
  }

  lemma PathOf(path: Bytes, query: Bytes, pattern: Bytes -> Option<Bytes>)
    requires path != [] && path[0] == 0x2F && 0x3F !in path && !HasPrefix(path, [0x2F, 0x30, 0x78])
    ensures var name, found := path + [0x3F] + query, pattern(path);
      && CleanRPCMethod(path, pattern) == CleanRPCMethod(name, pattern)
      && CleanRPCMethod(path, pattern) == if found.Some? then ToValid(found.value) else DEFAULT_PATTERN_METHOD
  {
    var name := path + [0x3F] + query;
    assert name[|path|] == 0x3F && name[..|path|] == path;
    assert forall i :: 0 <= i < |path| ==> name[i] == path[i];
    assert IndexQuery(name) == Some(|path|);
    assert IndexQuery(path) == None;
  }

  /** A path outside /0x is looked up without its query: a registered pattern, which is valid text, is the answer, and a
      path with none gets the one default. */
  lemma RegisteredPatternUsed(path: Bytes, query: Bytes, pattern: Bytes -> Option<Bytes>)
    requires path != [] && path[0] == 0x2F && 0x3F !in path && !HasPrefix(path, [0x2F, 0x30, 0x78])
    requires pattern(path).Some? ==> Valid(pattern(path).value)
    ensures forall name :: name == path || name == path + [0x3F] + query ==>
      CleanRPCMethod(name, pattern)
        == if pattern(path).Some? then pattern(path).value else Text("default_pattern_method")
  {
    DefaultText();
    PathOf(path, query, pattern);
    if pattern(path).Some? {
      ToValidIsValid(pattern(path).value);
    }
    hide CleanRPCMethod;
  }

  /** The query part of a path decides nothing. */
  lemma QueryIgnored(path: Bytes, query: Bytes, pattern: Bytes -> Option<Bytes>)
    requires path != [] && path[0] == 0x2F && 0x3F !in path && !HasPrefix(path, [0x2F, 0x30, 0x78])
    ensures CleanRPCMethod(path + [0x3F] + query, pattern) == CleanRPCMethod(path, pattern)
  {
    hide CleanRPCMethod;
    PathOf(path, query, pattern);
  }
}
