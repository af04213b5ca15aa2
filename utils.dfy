/** The two string helpers of `bulk-tumour-api/utils.py`. */
module Utils {
  import opened Wrappers

  /** Python's `s[-n:]` for n > 0: the last n characters, or all of s when it is shorter. */
  function LastChars(s: string, n: nat): (r: string)
    requires n > 0
    ensures |r| == if |s| < n then |s| else n
    ensures s[|s| - |r|..] == r
  {
    if |s| < n then s else s[|s| - n..]
  }

  /** True when `suffix` is exactly the end of `s`. */
  predicate EndsWith(s: string, suffix: string) {
    |suffix| <= |s| && s[|s| - |suffix|..] == suffix
  }

  const Comma := ","
  const Tab := "\t"

  /**
   * `delimiter_type`: the delimiter used to read a delimited text file, chosen by
   * the last four characters of its name (case-sensitively). Any other name falls
   * through both tests and yields None; slicing never raises, so the
   * `SyntaxError` branch is never taken.
   */
  function DelimiterType(filename: string): (r: Option<string>)
    ensures r == Some(Comma) <==> EndsWith(filename, ".csv")
    ensures r == Some(Tab) <==> EndsWith(filename, ".tsv") || EndsWith(filename, ".txt")
    ensures r == None <==>
      !EndsWith(filename, ".csv") && !EndsWith(filename, ".tsv") && !EndsWith(filename, ".txt")
  {
    var ext := LastChars(filename, 4);
    if ext == ".csv" then Some(Comma)
    else if ext in [".tsv", ".txt"] then Some(Tab)
    else None
  }

  /** A name's last four characters alone pick the delimiter, whatever precedes them. */
  lemma DelimiterOnlyLastFour(p: string, q: string, ext: string)
    requires |ext| == 4
    ensures DelimiterType(p + ext) == DelimiterType(q + ext)
  {
    assert (p + ext)[|p|..] == ext;
    assert (q + ext)[|q|..] == ext;
  }

  /** A name ending in `.csv` is read with commas. */
  lemma DelimiterCsv(p: string)
    ensures DelimiterType(p + ".csv") == Some(Comma)
  {
    DelimiterOnlyLastFour(p, [], ".csv");
  }

  /** A name ending in `.tsv` or `.txt` is read with tabs. */
  lemma DelimiterTsvTxt(p: string)
    ensures DelimiterType(p + ".tsv") == Some(Tab)
    ensures DelimiterType(p + ".txt") == Some(Tab)
  {
    DelimiterOnlyLastFour(p, [], ".tsv");
    DelimiterOnlyLastFour(p, [], ".txt");
  }

  /** The test is case-sensitive: `.CSV` and `.TSV` fall through to None. */
  lemma DelimiterCaseSensitive(p: string)
    ensures DelimiterType(p + ".CSV") == None
    ensures DelimiterType(p + ".TSV") == None
  {
    DelimiterOnlyLastFour(p, [], ".CSV");
    DelimiterOnlyLastFour(p, [], ".TSV");
  }

  /** A name shorter than four characters is never recognised, and nothing is raised. */
  lemma DelimiterShortName(filename: string)
    requires |filename| < 4
    ensures DelimiterType(filename) == None
  {
  }

  /** Python's `s.split(sep)` for a one-character separator: every occurrence splits. */
  function Split(s: string, sep: char): (parts: seq<string>)
    ensures |parts| >= 1
    ensures forall k :: 0 <= k < |parts| ==> sep !in parts[k]
    ensures |parts| == multiset(s)[sep] + 1
    decreases |s|
  {
    if s == [] then [[]]
    else
      var rest := Split(s[1..], sep);
      assert s == [s[0]] + s[1..];
      if s[0] == sep then [[]] + rest
      else [[s[0]] + rest[0]] + rest[1..]
  }

  /** Python's `sep.join(parts)`. */
  function Join(sep: string, parts: seq<string>): (r: string)
    ensures |parts| > 0 ==> |parts[0]| <= |r| && r[..|parts[0]|] == parts[0]
    ensures |parts| > 0 ==> EndsWith(r, parts[|parts| - 1])
    decreases |parts|
  {
    if |parts| == 0 then []
    else if |parts| == 1 then parts[0]
    else parts[0] + sep + Join(sep, parts[1..])
  }

  /** Iterating over a Python string yields its one-character strings. */
  function Chars(s: string): (cs: seq<string>)
    ensures |cs| == |s|
  {
    seq(|s|, i requires 0 <= i < |s| => [s[i]])
  }

  /** `s` with every `a` replaced by `b`: the reference for `b.join(s.split(a))`. */
  function Replace(s: string, a: char, b: char): (r: string)
    ensures |r| == |s|
  {
    seq(|s|, i requires 0 <= i < |s| => if s[i] == a then b else s[i])
  }

  /**
   * `record_date`, with the clock reading `str(datetime.now())` passed in as `now`.
   * With `tosec` every space becomes 'h'; otherwise the result is the date token,
   * everything before the first space.
   */
  function RecordDate(now: string, tosec: bool): (r: string)
    ensures ' ' !in r
    ensures tosec ==> r == Replace(now, ' ', 'h')
    ensures !tosec ==> |r| <= |now| && now[..|r|] == r && (|r| == |now| || now[|r|] == ' ')
  {
    if tosec then
      JoinSplitIsReplace(now, ' ', 'h');
      Join("h", Split(now, ' '))
    else
      var first := Split(now, ' ')[0];
      SplitHeadIsPrefix(now, ' ');
      JoinChars(first);
      Join("", Chars(first))
  }

  /** Joining after a split puts the glue character where each separator was. */
  lemma {:induction false} JoinSplitIsReplace(s: string, a: char, b: char)
    ensures Join([b], Split(s, a)) == Replace(s, a, b)
    decreases |s|
  {
    if s != [] {
      var rest := Split(s[1..], a);
      JoinSplitIsReplace(s[1..], a, b);
      if s[0] == a {
        JoinAfterEmpty(rest, [b]);
      } else {
        JoinExtendsHead([s[0]], rest, [b]);
      }
      ReplaceFirst(s, a, b);
    }
  }

  lemma ReplaceFirst(s: string, a: char, b: char)
    requires s != []
    ensures Replace(s, a, b) == [if s[0] == a then b else s[0]] + Replace(s[1..], a, b)
  {
  }

  /** An empty first part contributes only the separator. */
  lemma JoinAfterEmpty(parts: seq<string>, sep: string)
    requires |parts| >= 1
    ensures Join(sep, [[]] + parts) == sep + Join(sep, parts)
  {
    assert ([[]] + parts)[1..] == parts;
  }

  /** Joining with a longer first part extends the joined string at the front. */
  lemma JoinExtendsHead(c: string, parts: seq<string>, sep: string)
    requires |parts| >= 1
    ensures Join(sep, [c + parts[0]] + parts[1..]) == c + Join(sep, parts)
  {
    var ps := [c + parts[0]] + parts[1..];
    if |parts| > 1 {
      assert ps[1..] == parts[1..];
    }
  }

  /** Splitting then joining with the same separator gives the string back. */
  lemma JoinSplitRoundTrip(s: string, sep: char)
    ensures Join([sep], Split(s, sep)) == s
  {
    JoinSplitIsReplace(s, sep, sep);
  }

  /** The first piece of a split is the longest prefix free of the separator. */
  lemma {:induction false} SplitHeadIsPrefix(s: string, sep: char)
    ensures var h := Split(s, sep)[0];
      |h| <= |s| && s[..|h|] == h && (|h| == |s| || s[|h|] == sep)
    decreases |s|
  {
    if s != [] && s[0] != sep {
      SplitHeadIsPrefix(s[1..], sep);
    }
  }

  /** `''.join(s)` over the characters of a string gives the string back. */
  lemma {:induction false} JoinChars(s: string)
    ensures Join("", Chars(s)) == s
    decreases |s|
  {
    if |s| > 1 {
      JoinChars(s[1..]);
      assert Chars(s)[1..] == Chars(s[1..]);
    }
  }

  /** Element `i` of the iteration is the one-character string of `s[i]`. */
  lemma CharsAt(s: string, i: int)
    requires 0 <= i < |s|
    ensures Chars(s)[i] == [s[i]]
  {
  }
}
