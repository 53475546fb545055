/** The download file-name sanitiser and the Content-Disposition header it feeds
    (the `/download/:id` route). JavaScript strings are sequences of UTF-16 code
    units; here a string is a sequence of Unicode scalar values, so a character
    above U+FFFF stands for the two code units JavaScript would see. A lone
    (unpaired) surrogate code unit, which a JavaScript string may hold and the
    second pass turns into one `_`, is not a Dafny `char` and is not modelled. */
module FileNames {
  import opened Records

  /** Characters the first pass deletes: carriage return, line feed, double quote. */
  predicate IsHeaderBreaker(c: char) {
    c == '\r' || c == '\n' || c == '"'
  }

  /** Characters the second pass keeps: the class `[a-zA-Z0-9._-]`. */
  predicate IsSafe(c: char) {
    ('a' <= c <= 'z') || ('A' <= c <= 'Z') || ('0' <= c <= '9') || c == '.' || c == '_' || c == '-'
  }

  /** Whether `c` takes two UTF-16 code units (a surrogate pair) in JavaScript. */
  predicate IsAstral(c: char) {
    c as int >= 0x1_0000
  }

  /** The JavaScript `length` of `s`: its number of UTF-16 code units. */
  function CodeUnits(s: string): nat {
    if s == [] then 0 else (if IsAstral(s[0]) then 2 else 1) + CodeUnits(s[1..])
  }

  /** How many characters of `s` the first pass deletes. */
  function CountBreakers(s: string): nat {
    if s == [] then 0 else (if IsHeaderBreaker(s[0]) then 1 else 0) + CountBreakers(s[1..])
  }

  /** First pass, `.replace(/[\r\n"]/g, "")`. */
  function StripBreakers(s: string): string {
    if s == [] then [] else (if IsHeaderBreaker(s[0]) then [] else [s[0]]) + StripBreakers(s[1..])
  }

  /** Second pass, `.replace(/[^a-zA-Z0-9._-]/g, "_")`. Without the `u` flag the
      class is matched against single code units, so both halves of a surrogate
      pair are replaced: an astral character becomes two underscores. */
  function ReplaceUnsafe(s: string): string {
    if s == [] then []
    else (if IsSafe(s[0]) then [s[0]] else if IsAstral(s[0]) then "__" else "_") + ReplaceUnsafe(s[1..])
  }

  lemma {:induction false} StripBreakersFacts(s: string)
    ensures forall i :: 0 <= i < |StripBreakers(s)| ==> !IsHeaderBreaker(StripBreakers(s)[i])
    ensures CountBreakers(s) <= CodeUnits(s)
    ensures CodeUnits(StripBreakers(s)) == CodeUnits(s) - CountBreakers(s)
  {
    if s != [] {
      StripBreakersFacts(s[1..]);
      var head: string := if IsHeaderBreaker(s[0]) then [] else [s[0]];
      CodeUnitsAppend(head, StripBreakers(s[1..]));
    }
  }

  lemma {:induction false} ReplaceUnsafeFacts(s: string)
    ensures forall i :: 0 <= i < |ReplaceUnsafe(s)| ==> IsSafe(ReplaceUnsafe(s)[i])
    ensures |ReplaceUnsafe(s)| == CodeUnits(s)
  {
    if s != [] {
      ReplaceUnsafeFacts(s[1..]);
    }
  }

  lemma {:induction false} CodeUnitsAppend(a: string, b: string)
    ensures CodeUnits(a + b) == CodeUnits(a) + CodeUnits(b)
  {
    if a == [] {
      assert a + b == b;
    } else {
      assert (a + b)[0] == a[0] && (a + b)[1..] == a[1..] + b;
      CodeUnitsAppend(a[1..], b);
    }
  }

  /** `sanitizeFileName`: the result is made only of `[A-Za-z0-9._-]` (so in
      particular it holds no CR, LF or double quote), and its JavaScript length is
      the input's length less the deleted CR, LF and quote characters. */
  function SanitizeFileName(name: string): (r: string)
    ensures forall i :: 0 <= i < |r| ==> IsSafe(r[i]) && !IsHeaderBreaker(r[i])
    ensures CountBreakers(name) <= CodeUnits(name)
    ensures |r| == CodeUnits(name) - CountBreakers(name)
  {
    StripBreakersFacts(name);
    ReplaceUnsafeFacts(StripBreakers(name));
    ReplaceUnsafe(StripBreakers(name))
  }

  lemma {:induction false} StripBreakersKeepsClean(s: string)
    requires forall i :: 0 <= i < |s| ==> !IsHeaderBreaker(s[i])
    ensures StripBreakers(s) == s
  {
    if s != [] {
      StripBreakersKeepsClean(s[1..]);
    }
  }

  lemma {:induction false} ReplaceUnsafeKeepsSafe(s: string)
    requires forall i :: 0 <= i < |s| ==> IsSafe(s[i])
    ensures ReplaceUnsafe(s) == s
  {
    if s != [] {
      ReplaceUnsafeKeepsSafe(s[1..]);
    }
  }

  /** A name is left alone by the sanitiser exactly when all its characters are
      already in `[A-Za-z0-9._-]`. */
  lemma SanitizeFixedPoint(name: string)
    ensures SanitizeFileName(name) == name <==> forall i :: 0 <= i < |name| ==> IsSafe(name[i])
  {
    if forall i :: 0 <= i < |name| ==> IsSafe(name[i]) {
      StripBreakersKeepsClean(name);
      ReplaceUnsafeKeepsSafe(name);
    }
  }

  lemma {:induction false} StripBreakersConcat(a: string, b: string)
    ensures StripBreakers(a + b) == StripBreakers(a) + StripBreakers(b)
  {
    if a != [] {
      assert (a + b)[0] == a[0] && (a + b)[1..] == a[1..] + b;
      StripBreakersConcat(a[1..], b);
    } else {
      assert a + b == b;
    }
  }

  lemma StripBreakersChar(c: char)
    ensures StripBreakers([c]) == if IsHeaderBreaker(c) then [] else [c]
  {
    assert [c][1..] == [];
  }

  /** The first pass works character by character: it distributes over
      concatenation, deletes a CR, LF or double quote and keeps anything else. */
  lemma StripBreakersAppend(a: string, b: string)
    ensures StripBreakers(a + b) == StripBreakers(a) + StripBreakers(b)
    ensures forall c :: StripBreakers([c]) == if IsHeaderBreaker(c) then [] else [c]
  {
    StripBreakersConcat(a, b);
    forall c ensures StripBreakers([c]) == if IsHeaderBreaker(c) then [] else [c] {
      StripBreakersChar(c);
    }
  }

  lemma {:induction false} ReplaceUnsafeConcat(a: string, b: string)
    ensures ReplaceUnsafe(a + b) == ReplaceUnsafe(a) + ReplaceUnsafe(b)
  {
    if a != [] {
      assert (a + b)[0] == a[0] && (a + b)[1..] == a[1..] + b;
      ReplaceUnsafeConcat(a[1..], b);
    } else {
      assert a + b == b;
    }
  }

  lemma ReplaceUnsafeChar(c: char)
    ensures ReplaceUnsafe([c]) == if IsSafe(c) then [c] else if IsAstral(c) then "__" else "_"
  {
    assert [c][1..] == [];
  }

  /** The second pass works character by character: it distributes over
      concatenation, keeps a character of `[A-Za-z0-9._-]`, and replaces any
      other character by one underscore per UTF-16 code unit. */
  lemma ReplaceUnsafeAppend(a: string, b: string)
    ensures ReplaceUnsafe(a + b) == ReplaceUnsafe(a) + ReplaceUnsafe(b)
    ensures forall c :: ReplaceUnsafe([c]) == if IsSafe(c) then [c] else if IsAstral(c) then "__" else "_"
  {
    ReplaceUnsafeConcat(a, b);
    forall c ensures ReplaceUnsafe([c]) == if IsSafe(c) then [c] else if IsAstral(c) then "__" else "_" {
      ReplaceUnsafeChar(c);
    }
  }

  /** On text whose characters are each one UTF-16 code unit, the second pass
      keeps the length and maps position by position: a safe character stays,
      any other becomes `_`. */
  lemma {:induction false} ReplaceUnsafeAt(s: string)
    requires forall i :: 0 <= i < |s| ==> !IsAstral(s[i])
    ensures |ReplaceUnsafe(s)| == |s|
    ensures forall i :: 0 <= i < |s| ==> ReplaceUnsafe(s)[i] == if IsSafe(s[i]) then s[i] else '_'
  {
    if s != [] {
      ReplaceUnsafeAt(s[1..]);
      var r := ReplaceUnsafe(s);
      forall i | 0 <= i < |s|
        ensures r[i] == if IsSafe(s[i]) then s[i] else '_'
      {
        if i > 0 {
          assert r[i] == ReplaceUnsafe(s[1..])[i - 1] && s[i] == s[1..][i - 1];
        }
      }
    }
  }

  /** `sanitizeFileName` is determined character by character: the result for a
      concatenation is the concatenation of the results, a CR, LF or double
      quote vanishes, a character of `[A-Za-z0-9._-]` is kept, and any other
      character becomes one underscore per UTF-16 code unit. */
  lemma SanitizeAppend(a: string, b: string)
    ensures SanitizeFileName(a + b) == SanitizeFileName(a) + SanitizeFileName(b)
    ensures forall c :: (SanitizeFileName([c]) ==
                         if IsHeaderBreaker(c) then [] else if IsSafe(c) then [c] else if IsAstral(c) then "__" else "_")
  {
    StripBreakersConcat(a, b);
    ReplaceUnsafeConcat(StripBreakers(a), StripBreakers(b));
    forall c ensures SanitizeFileName([c]) ==
      if IsHeaderBreaker(c) then [] else if IsSafe(c) then [c] else if IsAstral(c) then "__" else "_"
    {
      StripBreakersChar(c);
      if !IsHeaderBreaker(c) {
        ReplaceUnsafeChar(c);
      }
    }
  }

  /** Sanitising twice is the same as sanitising once. */
  lemma SanitizeIdempotent(name: string)
    ensures SanitizeFileName(SanitizeFileName(name)) == SanitizeFileName(name)
  {
    SanitizeFixedPoint(SanitizeFileName(name));
  }

  /** The name put in the download header: `sanitizeFileName(file.fileName || "file")`. */
  function DownloadFileName(stored: Option<string>): (r: string)
    ensures !Truthy(stored) ==> r == "file"
    ensures Truthy(stored) ==> r == SanitizeFileName(stored.value)
  {
    var r := SanitizeFileName(OrElse(stored, "file"));
    SanitizeFixedPoint("file");
    r
  }

  const DispositionPrefix: string := "attachment; filename=\""

  /** The header prefix holds no CR or LF, and its only double quote is its
      last character, the one that opens the file name. */
  lemma DispositionPrefixFacts()
    ensures forall i :: 0 <= i < |DispositionPrefix| ==>
      DispositionPrefix[i] != '\r' && DispositionPrefix[i] != '\n'
      && (DispositionPrefix[i] == '"' <==> i == |DispositionPrefix| - 1)
  {
  }

  /** Quoting a name free of CR, LF and double quotes after such a prefix. */
  lemma {:induction false} QuotedValue(prefix: string, name: string)
    requires forall i :: 0 <= i < |prefix| ==>
      prefix[i] != '\r' && prefix[i] != '\n' && (prefix[i] == '"' <==> i == |prefix| - 1)
    requires forall i :: 0 <= i < |name| ==> !IsHeaderBreaker(name[i])
    ensures var v := prefix + name + "\"";
      && (forall i :: 0 <= i < |v| ==> v[i] != '\r' && v[i] != '\n')
      && (forall i :: 0 <= i < |v| ==> (v[i] == '"' <==> i == |prefix| - 1 || i == |v| - 1))
      && v[..|prefix|] == prefix
      && v[|prefix|..|v| - 1] == name
  {
    var v := prefix + name + "\"";
    forall i | 0 <= i < |v|
      ensures v[i] != '\r' && v[i] != '\n'
      ensures v[i] == '"' <==> i == |prefix| - 1 || i == |v| - 1
    {
      if i < |prefix| {
        assert v[i] == prefix[i];
      } else if i < |prefix| + |name| {
        assert v[i] == name[i - |prefix|];
      }
    }
    assert v[..|prefix|] == prefix;
    assert v[|prefix|..|v| - 1] == name;
  }

  /** The Content-Disposition value of a download. The only double quotes in it
      are the two that open and close the file name, and it holds no CR or LF, so
      a stored name can neither end the quoted value early nor start a new header
      line; between the quotes stands exactly the download file name. */
  function AttachmentDisposition(stored: Option<string>): (v: string)
    ensures |v| == |DispositionPrefix| + |DownloadFileName(stored)| + 1
    ensures forall i :: 0 <= i < |v| ==> v[i] != '\r' && v[i] != '\n'
    ensures forall i :: 0 <= i < |v| ==> (v[i] == '"' <==> i == |DispositionPrefix| - 1 || i == |v| - 1)
    ensures v[..|DispositionPrefix|] == DispositionPrefix
    ensures v[|DispositionPrefix|..|v| - 1] == DownloadFileName(stored)
  {
    var name := DownloadFileName(stored);
    DispositionPrefixFacts();
    QuotedValue(DispositionPrefix, name);
    DispositionPrefix + name + "\""
  }
}
