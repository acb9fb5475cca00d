/** The log-line filename extractor (`extractFileName`, cmd/main.go): the file
    name is the text between the last backslash of the line and the last single
    quote after it, once newlines have been turned into spaces. */
module FileName {
  import opened Text

  const Backslash: char := '\\'
  const Quote: char := '\''

  /** Returns `(name, true)` on success and `("", false)` when the normalised
      line has no backslash or no quote after its last backslash. */
  function ExtractFileName(line: string): (r: (string, bool))
    ensures !r.1 ==> r.0 == ""
    ensures r.1 ==> Backslash !in r.0 && '\n' !in r.0
    ensures |r.0| < |line| || |line| == 0
  {
    var t := ReplaceNewlines(line);
    var start := LastIndex(t, Backslash);
    if start == -1 then ("", false)
    else
      var start := start + 1;
      var end := LastIndex(t[start..], Quote);
      if end == -1 then ("", false)
      else
        var end := end + start;
        (t[start..end], true)
  }

  /** The backslash at `b` is the last one of `t` and the quote at `q` is the
      last one after it: the two delimiters of the file name. */
  ghost predicate Delimits(t: string, b: int, q: int)
  {
    && 0 <= b < q < |t|
    && t[b] == Backslash && Backslash !in t[b + 1..]
    && t[q] == Quote && Quote !in t[q + 1..]
  }

  /** The last index of `c` is the occurrence with none after it. */
  lemma LastIndexAt(s: string, c: char, i: int)
    requires 0 <= i < |s| && s[i] == c && c !in s[i + 1..]
    ensures LastIndex(s, c) == i
  {
  }

  /** Nothing after the last index of `c` is a `c`. */
  lemma AfterLastIndex(s: string, c: char)
    ensures c !in s[LastIndex(s, c) + 1..]
  {
  }

  /** Whenever the normalised line has a delimiting pair, the extractor finds
      exactly that pair and returns the text between them. */
  lemma DelimitersFound(line: string, b: int, q: int)
    requires Delimits(ReplaceNewlines(line), b, q)
    ensures ExtractFileName(line) == (ReplaceNewlines(line)[b + 1..q], true)
  {
    var t := ReplaceNewlines(line);
    DelimitersAreLastIndices(t, b, q);
    assert ExtractFileName(line) == (t[b + 1..b + 1 + (q - b - 1)], true);
  }

  /** A delimiting pair sits where the two last-index searches stop. */
  lemma DelimitersAreLastIndices(t: string, b: int, q: int)
    requires Delimits(t, b, q)
    ensures LastIndex(t, Backslash) == b
    ensures LastIndex(t[b + 1..], Quote) == q - b - 1
  {
    LastIndexAt(t, Backslash, b);
    assert t[b + 1..][q - b..] == t[q + 1..];
    LastIndexAt(t[b + 1..], Quote, q - b - 1);
  }

  /** A successful extraction stopped at a delimiting pair and returned the
      text between it. */
  lemma FoundAtDelimiters(line: string)
    requires ExtractFileName(line).1
    ensures exists b, q ::
              Delimits(ReplaceNewlines(line), b, q) && ExtractFileName(line).0 == ReplaceNewlines(line)[b + 1..q]
  {
    var t := ReplaceNewlines(line);
    var start := LastIndex(t, Backslash);
    var end := LastIndex(t[start + 1..], Quote);
    assert ExtractFileName(line) == (t[start + 1..start + 1 + end], true);
    ComputedDelimiters(t, start, end);
  }

  /** The two positions the extractor computes form a delimiting pair. */
  lemma ComputedDelimiters(t: string, start: int, end: int)
    requires start == LastIndex(t, Backslash) && start != -1
    requires end == LastIndex(t[start + 1..], Quote) && end != -1
    ensures Delimits(t, start, start + 1 + end)
  {
    AfterLastIndex(t, Backslash);
    AfterLastIndex(t[start + 1..], Quote);
    assert t[start + 1..][end + 1..] == t[start + 1 + end + 1..];
  }

  /** The two not-found cases: no backslash at all, or no quote after the last
      backslash. */
  lemma NotFoundCases(line: string)
    ensures Backslash !in ReplaceNewlines(line) ==> ExtractFileName(line) == ("", false)
    ensures forall b :: LastBackslashWithoutQuote(ReplaceNewlines(line), b) ==>
      ExtractFileName(line) == ("", false)
  {
    var t := ReplaceNewlines(line);
    forall b | LastBackslashWithoutQuote(t, b)
      ensures ExtractFileName(line) == ("", false)
    {
      LastIndexAt(t, Backslash, b);
    }
  }

  /** `t[b]` is the last backslash of `t` and no quote follows it. */
  ghost predicate LastBackslashWithoutQuote(t: string, b: int)
  {
    0 <= b < |t| && t[b] == Backslash && Backslash !in t[b + 1..] && Quote !in t[b + 1..]
  }

  /** A name placed between a backslash and a closing quote is recovered
      verbatim, whatever precedes it, provided the name has no backslash or
      newline and the text after the quote has no backslash or quote. The name
      itself may contain quotes. */
  lemma ExtractEmbedded(line: string, prefix: string, name: string, suffix: string)
    requires line == prefix + [Backslash] + name + [Quote] + suffix
    requires Backslash !in name && '\n' !in name
    requires Backslash !in suffix && Quote !in suffix
    ensures ExtractFileName(line) == (name, true)
  {
    var b := |ReplaceNewlines(prefix)|;
    EmbeddedNameDelimited(prefix, name, suffix);
    DelimitedName(line, name, b, b + 1 + |name|);
  }

  /** After normalisation the inserted backslash and quote still delimit the
      name. */
  lemma EmbeddedNameDelimited(prefix: string, name: string, suffix: string)
    requires Backslash !in name && '\n' !in name
    requires Backslash !in suffix && Quote !in suffix
    ensures var t := ReplaceNewlines(prefix + [Backslash] + name + [Quote] + suffix);
      var b := |ReplaceNewlines(prefix)|;
      Delimits(t, b, b + 1 + |name|) && t[b + 1..b + 1 + |name|] == name
  {
    var p, s := ReplaceNewlines(prefix), ReplaceNewlines(suffix);
    NormalisedEmbedded(prefix, name, suffix);
    NoNewDelimiters(suffix);
    EmbeddedDelimits(p, name, s);
  }

  /** `DelimitersFound`, with the delimited text named. */
  lemma DelimitedName(line: string, name: string, b: int, q: int)
    requires Delimits(ReplaceNewlines(line), b, q)
    requires ReplaceNewlines(line)[b + 1..q] == name
    ensures ExtractFileName(line) == (name, true)
  {
    DelimitersFound(line, b, q);
  }

  /** Normalising leaves the delimiters and a newline-free name in place. */
  lemma NormalisedEmbedded(prefix: string, name: string, suffix: string)
    requires '\n' !in name
    ensures ReplaceNewlines(prefix + [Backslash] + name + [Quote] + suffix)
         == ReplaceNewlines(prefix) + [Backslash] + name + [Quote] + ReplaceNewlines(suffix)
  {
    var rest := [Backslash] + name + [Quote];
    assert '\n' !in rest;
    assert ReplaceNewlines(rest) == rest;
    assert prefix + [Backslash] + name + [Quote] + suffix == prefix + (rest + suffix);
    ReplaceNewlinesAppend(prefix, rest + suffix);
    ReplaceNewlinesAppend(rest, suffix);
    assert ReplaceNewlines(prefix) + (rest + ReplaceNewlines(suffix))
        == ReplaceNewlines(prefix) + [Backslash] + name + [Quote] + ReplaceNewlines(suffix);
  }

  /** Normalising introduces neither a backslash nor a quote. */
  lemma NoNewDelimiters(s: string)
    ensures Backslash in ReplaceNewlines(s) ==> Backslash in s
    ensures Quote in ReplaceNewlines(s) ==> Quote in s
  {
    var t := ReplaceNewlines(s);
    if Backslash in t || Quote in t {
      var k :| 0 <= k < |t| && (t[k] == Backslash || t[k] == Quote);
      assert s[k] in s;
    }
  }

  /** In `p + "\" + name + "'" + s` the two inserted characters delimit
      `name`. */
  lemma EmbeddedDelimits(p: string, name: string, s: string)
    requires Backslash !in name
    requires Backslash !in s && Quote !in s
    ensures var t := p + [Backslash] + name + [Quote] + s;
      Delimits(t, |p|, |p| + 1 + |name|) && t[|p| + 1..|p| + 1 + |name|] == name
  {
    var t := p + [Backslash] + name + [Quote] + s;
    var b, q := |p|, |p| + 1 + |name|;
    assert t[b + 1..] == name + [Quote] + s;
    assert t[q + 1..] == s;
    assert t[b + 1..q] == name;
  }

  // The example lemmas below take the line as a parameter fixed by `requires`
  // rather than applying ExtractFileName to the literal: a literal argument
  // lets the verifier unfold the scan over every character, which is far
  // more expensive than the ExtractEmbedded route.

  /** The log line used while developing the adapter yields `srudb.dat`. */
  lemma SampleLine(line: string)
    requires line == "File 'c:\\windows\\system32\\sru\\srudb.dat' added Mode: scheduled"
    ensures ExtractFileName(line) == ("srudb.dat", true)
  {
    SampleLinePieces(line);
    SamplePiecesClean();
    ExtractEmbedded(line, "File 'c:\\windows\\system32\\sru", "srudb.dat", " added Mode: scheduled");
  }

  /** The sample line cut at its last backslash and at the quote after it. */
  lemma SampleLinePieces(line: string)
    requires line == "File 'c:\\windows\\system32\\sru\\srudb.dat' added Mode: scheduled"
    ensures line == "File 'c:\\windows\\system32\\sru" + [Backslash] + "srudb.dat" + [Quote] + " added Mode: scheduled"
  {
  }

  /** The name and the tail of the sample line hold no delimiter. */
  lemma SamplePiecesClean()
    ensures Backslash !in "srudb.dat" && '\n' !in "srudb.dat"
    ensures Backslash !in " added Mode: scheduled" && Quote !in " added Mode: scheduled"
  {
  }

  /** A line without a path yields nothing. */
  lemma LineWithoutPath(line: string)
    requires line == "no path here"
    ensures ExtractFileName(line) == ("", false)
  {
    assert '\n' !in line && Backslash !in line;
    NotFoundCases(line);
  }

  /** Quotes before the closing one stay part of the name. */
  lemma QuoteInsideName(line: string)
    requires line == "File 'C:\\it's.txt' added"
    ensures ExtractFileName(line) == ("it's.txt", true)
  {
    ExtractEmbedded(line, "File 'C:", "it's.txt", " added");
  }

  /** A quote right after the last backslash is a success with an empty name,
      whatever precedes it: the adapter goes on to search MISP for the empty
      string. */
  lemma EmptyNameAfterBackslash(prefix: string, suffix: string)
    requires Backslash !in suffix && Quote !in suffix
    ensures ExtractFileName(prefix + [Backslash, Quote] + suffix) == ("", true)
  {
    assert prefix + [Backslash, Quote] + suffix == prefix + [Backslash] + "" + [Quote] + suffix;
    ExtractEmbedded(prefix + [Backslash, Quote] + suffix, prefix, "", suffix);
  }

  /** Extracting again from an extracted name finds nothing: the name holds no
      backslash, so it is not a line with a path. */
  lemma ReExtractFindsNothing(line: string)
    requires ExtractFileName(line).1
    ensures ExtractFileName(ExtractFileName(line).0) == ("", false)
  {
    NotFoundCases(ExtractFileName(line).0);
  }
}
