/**
 * The exception list of the audit gate: a line by line reader of a small part of YAML.
 */
module AuditParser {
  import opened Tables

  // ---------------------------------------------------------------- text

  predicate IsSpace(c: char) {
    var n := c as int;
    9 <= n <= 13 || 28 <= n <= 32 || n == 133 || n == 160 || n == 5760 || 8192 <= n <= 8202 || n == 8232 || n == 8233
    || n == 8239 || n == 8287 || n == 12288
  }

  const SPACES: seq<int> :=
    [9, 10, 11, 12, 13, 28, 29, 30, 31, 32, 133, 160, 5760, 8192, 8193, 8194, 8195, 8196, 8197, 8198, 8199, 8200,
     8201, 8202, 8232, 8233, 8239, 8287, 12288]

  /** The white space characters of Unicode, one by one. */
  lemma {:induction false} SpacesAre(c: char)
    ensures IsSpace(c) <==> c as int in SPACES
  {
    var n := c as int;
    if 9 <= n <= 13 { assert SPACES[n - 9] == n; }
    if 28 <= n <= 32 { assert SPACES[n - 23] == n; }
    if 8192 <= n <= 8202 { assert SPACES[n - 8179] == n; }
    assert SPACES[10] == 133 && SPACES[11] == 160 && SPACES[12] == 5760;
    assert SPACES[24] == 8232 && SPACES[25] == 8233 && SPACES[26] == 8239 && SPACES[27] == 8287 && SPACES[28] == 12288;
  }

  function StripLeft(s: string): string {
    if s != [] && IsSpace(s[0]) then StripLeft(s[1..]) else s
  }

  function StripRight(s: string): string {
    if s != [] && IsSpace(s[|s| - 1]) then StripRight(s[..|s| - 1]) else s
  }

  function Strip(s: string): string {
    StripRight(StripLeft(s))
  }

  predicate StartsWith(s: string, prefix: string) {
    |prefix| <= |s| && s[..|prefix|] == prefix
  }

  predicate Blank(s: string) {
    forall i :: 0 <= i < |s| ==> IsSpace(s[i])
  }

  predicate Trimmed(s: string) {
    s == [] || (!IsSpace(s[0]) && !IsSpace(s[|s| - 1]))
  }

  lemma {:induction false} StripLeftPadded(pre: string, s: string)
    requires Blank(pre) && (s == [] || !IsSpace(s[0]))
    ensures StripLeft(pre + s) == s
  {
    if pre == [] {
      assert pre + s == s;
    } else {
      assert (pre + s)[1..] == pre[1..] + s;
      StripLeftPadded(pre[1..], s);
    }
  }

  lemma {:induction false} StripRightPadded(s: string, post: string)
    requires Blank(post) && (s == [] || !IsSpace(s[|s| - 1]))
    ensures StripRight(s + post) == s
  {
    if post == [] {
      assert s + post == s;
    } else {
      assert (s + post)[..|s + post| - 1] == s + post[..|post| - 1];
      StripRightPadded(s, post[..|post| - 1]);
    }
  }

  lemma {:induction false} StripPadded(pre: string, s: string, post: string)
    requires Blank(pre) && Trimmed(s) && s != [] && Blank(post)
    ensures Strip(pre + s + post) == s
  {
    assert pre + s + post == pre + (s + post);
    StripLeftPadded(pre, s + post);
    StripRightPadded(s, post);
  }

  /** Stripping removes exactly the padding: the result is trimmed, and what is cut off is blank. */
  lemma {:induction false} StripSplits(s: string) returns (pre: string, post: string)
    ensures Trimmed(Strip(s)) && Blank(pre) && Blank(post) && s == pre + Strip(s) + post
  {
    var left := StripLeft(s);
    pre := StripLeftSplits(s);
    post := StripRightSplits(left);
  }

  lemma {:induction false} StripLeftSplits(s: string) returns (pre: string)
    ensures Blank(pre) && s == pre + StripLeft(s) && (StripLeft(s) == [] || !IsSpace(StripLeft(s)[0]))
  {
    pre := [];
    if s != [] && IsSpace(s[0]) {
      pre := StripLeftSplits(s[1..]);
      pre := [s[0]] + pre;
    }
  }

  lemma {:induction false} StripRightSplits(s: string) returns (post: string)
    ensures Blank(post) && s == StripRight(s) + post &&
            (StripRight(s) == [] || !IsSpace(StripRight(s)[|StripRight(s)| - 1]))
  {
    post := [];
    if s != [] && IsSpace(s[|s| - 1]) {
      post := StripRightSplits(s[..|s| - 1]);
      post := post + [s[|s| - 1]];
    }
  }

  // ---------------------------------------------------------------- one line

  /** The position of the first colon, or the length. */
  function Colon(s: string): (n: nat)
    ensures n <= |s|
  {
    if s == [] || s[0] == ':' then 0 else 1 + Colon(s[1..])
  }

  predicate Enclosed(s: string, quote: char) {
    s != [] && s[0] == quote && s[|s| - 1] == quote
  }

  /** Without the quotes around it; a lone quote counts as both its first and its last character. */
  function Unquote(s: string): string {
    if Enclosed(s, '"') || Enclosed(s, '\'') then (if |s| == 1 then "" else s[1..|s| - 1]) else s
  }

  /** The text starts and ends with one and the same kind of quote. */
  predicate InQuotes(s: string) {
    s != "" && s[0] == s[|s| - 1] && (s[0] == '"' || s[0] == '\'')
  }

  /** Quotes are taken off exactly if they are the same at both ends, and then both ends and nothing else. */
  lemma {:induction false} UnquoteIff(s: string)
    ensures Unquote(s) != s <==> InQuotes(s)
    ensures InQuotes(s) && |s| > 1 ==> s == [s[0]] + Unquote(s) + [s[0]]
    ensures InQuotes(s) && |s| == 1 ==> Unquote(s) == ""
  {
  }

  datatype Pair = Pair(key: string, value: string)

  /** A line without a colon cannot be split; Python raises a ValueError. */
  function SplitKV(line: string): Option<Pair> {
    var n := Colon(line);
    if n == |line| then None else Some(Pair(Strip(line[..n]), Unquote(Strip(line[n + 1..]))))
  }

  /**
   * How a line is split: at its first colon, into a key without white space around it and a value that is
   * stripped first and loses its quotes then.
   */
  lemma {:induction false} SplitMeans(line: string)
    returns (key: string, value: string, a: string, b: string, c: string, d: string)
    requires ':' in line
    ensures Blank(a) && Blank(b) && Blank(c) && Blank(d) && Trimmed(key) && Trimmed(value) && ':' !in key
    ensures line == a + key + b + ":" + c + value + d
    ensures SplitKV(line) == Some(Pair(key, Unquote(value)))
  {
    var n := Colon(line);
    ColonFound(line);
    ColonIsFirst(line);
    var left, right := line[..n], line[n + 1..];
    key, value := Strip(left), Strip(right);
    a, b := StripSplits(left);
    c, d := StripSplits(right);
    assert line == left + ":" + right;
    hide Strip, Colon, Blank, Trimmed, Unquote;
    Glue(a, key, b, ":" , c, value, d);
    KeepsOut(':', a, key, b);
  }

  lemma {:induction false} Glue(a: string, b: string, c: string, d: string, e: string, f: string, g: string)
    ensures (a + b + c) + d + (e + f + g) == a + b + c + d + e + f + g
  {
  }

  lemma {:induction false} KeepsOut(x: char, a: string, b: string, c: string)
    requires x !in a + b + c
    ensures x !in b
  {
    assert forall i :: 0 <= i < |b| ==> (a + b + c)[|a| + i] == b[i];
  }

  lemma {:induction false} ColonIsFirst(s: string)
    ensures ':' !in s[..Colon(s)]
    ensures Colon(s) < |s| ==> s[Colon(s)] == ':'
  {
    if s != [] && s[0] != ':' {
      ColonIsFirst(s[1..]);
      assert s[..Colon(s)] == [s[0]] + s[1..][..Colon(s[1..])];
    }
  }

  /** What a line of the file is: skipped, the start of an entry, a further key of one, or a crash. */
  datatype Line = Ignored | Start(pair: Pair) | More(pair: Pair) | Malformed

  function Classify(raw: string): Line {
    var line := Strip(raw);
    if line == "" || StartsWith(line, "#") || StartsWith(line, "version:") || StartsWith(line, "exceptions:")
      then Ignored
    else if StartsWith(line, "- ") then
      var kv := SplitKV(Strip(line[2..]));
      if kv.Some? then Start(kv.value) else Malformed
    else if Colon(line) < |line| then More(SplitKV(line).value)
    else Ignored
  }

  lemma {:induction false} ColonFound(s: string)
    ensures Colon(s) < |s| <==> ':' in s
  {
    if s != [] && s[0] != ':' {
      ColonFound(s[1..]);
      assert s == [s[0]] + s[1..];
    }
  }

  /** A stripped line that starts with a dash and a space always has something after them. */
  lemma {:induction false} DashHasContent(raw: string)
    ensures StartsWith(Strip(raw), "- ") ==> Strip(Strip(raw)[2..]) != ""
  {
    var line := Strip(raw);
    var p, q := StripSplits(raw);
    if StartsWith(line, "- ") {
      var rest := line[2..];
      assert line[1] == ' ' && !IsSpace(line[|line| - 1]);
      assert rest[|rest| - 1] == line[|line| - 1];
      var pre, post := StripSplits(rest);
      assert Strip(rest) == "" ==> rest == pre + post && Blank(pre + post);
    }
  }

  // ---------------------------------------------------------------- the whole file

  type Entry = map<string, string>

  function WithPair(e: Entry, p: Pair): Entry {
    e[p.key := p.value]
  }

  /** The pairs of every entry, in the order of the lines. */
  function Blocks(lines: seq<Line>): seq<seq<Pair>> {
    if lines == [] then []
    else
      var before := Blocks(lines[..|lines| - 1]);
      match lines[|lines| - 1]
      case Start(p) => before + [[p]]
      case More(p) => if before == [] then [] else before[..|before| - 1] + [before[|before| - 1] + [p]]
      case _ => before
  }

  function Dict(pairs: seq<Pair>): Entry {
    if pairs == [] then map[] else WithPair(Dict(pairs[..|pairs| - 1]), pairs[|pairs| - 1])
  }

  function Dicts(blocks: seq<seq<Pair>>): (r: seq<Entry>)
    ensures |r| == |blocks|
  {
    seq(|blocks|, i requires 0 <= i < |blocks| => Dict(blocks[i]))
  }

  function Classified(raws: seq<string>): (r: seq<Line>)
    ensures |r| == |raws|
  {
    seq(|raws|, i requires 0 <= i < |raws| => Classify(raws[i]))
  }

  /** The entries of a file, or None if some line makes the reader crash. */
  function Parse(raws: seq<string>): Option<seq<Entry>> {
    var lines := Classified(raws);
    if Malformed in lines then None else Some(Dicts(Blocks(lines)))
  }

  lemma {:induction false} BlocksSnoc(lines: seq<Line>, line: Line)
    ensures Blocks(lines + [line]) ==
            var before := Blocks(lines);
            match line
            case Start(p) => before + [[p]]
            case More(p) => if before == [] then [] else before[..|before| - 1] + [before[|before| - 1] + [p]]
            case _ => before
  {
    assert (lines + [line])[..|lines|] == lines;
  }

  lemma {:induction false} DictSnoc(pairs: seq<Pair>, p: Pair)
    ensures Dict(pairs + [p]) == WithPair(Dict(pairs), p)
  {
    assert (pairs + [p])[..|pairs|] == pairs;
  }

  /** Entries begun but not yet put on the list: the reader keeps the latest one aside. */
  ghost predicate Read(exceptions: seq<Entry>, current: Option<Entry>, lines: seq<Line>) {
    && Malformed !in lines
    && Dicts(Blocks(lines)) == (if current.Some? then exceptions + [current.value] else exceptions)
    && (current.None? ==> exceptions == [])
    && (current.Some? ==> current.value != map[])
  }

  lemma {:induction false} ReadStart(exceptions: seq<Entry>, current: Option<Entry>, lines: seq<Line>, p: Pair)
    requires Read(exceptions, current, lines)
    ensures Read(if current.Some? then exceptions + [current.value] else exceptions,
                 Some(WithPair(map[], p)), lines + [Start(p)])
  {
    hide Dicts, Dict;
    BlocksSnoc(lines, Start(p));
    hide Blocks;
    DictOne(p);
    DictsSnoc(Blocks(lines), [p]);
    assert p.key in WithPair(map[], p);
  }

  lemma {:induction false} ReadPair(exceptions: seq<Entry>, current: Entry, lines: seq<Line>, p: Pair)
    requires Read(exceptions, Some(current), lines)
    ensures Read(exceptions, Some(WithPair(current, p)), lines + [More(p)])
  {
    hide Dicts, Dict;
    BlocksSnoc(lines, More(p));
    hide Blocks;
    var before := Blocks(lines);
    assert |before| == |exceptions| + 1;
    var front, last := before[..|before| - 1], before[|before| - 1];
    DictSnoc(last, p);
    DictsSnoc(front, last);
    DictsSnoc(front, last + [p]);
    assert before == front + [last];
    SameLast(Dicts(front), Dict(last), exceptions, current);
    assert p.key in WithPair(current, p);
  }

  lemma {:induction false} ReadMore(exceptions: seq<Entry>, current: Option<Entry>, lines: seq<Line>, line: Line)
    requires Read(exceptions, current, lines) && !line.Malformed?
    ensures line.Ignored? ==> Read(exceptions, current, lines + [line])
    ensures line.Start? ==> Read(if current.Some? then exceptions + [current.value] else exceptions,
                                 Some(WithPair(map[], line.pair)), lines + [line])
    ensures line.More? ==>
              Read(exceptions, if current.Some? then Some(WithPair(current.value, line.pair)) else None, lines + [line])
  {
    if line.Start? {
      ReadStart(exceptions, current, lines, line.pair);
    } else if line.More? && current.Some? {
      ReadPair(exceptions, current.value, lines, line.pair);
    } else {
      BlocksSnoc(lines, line);
      hide Blocks, Dict;
    }
  }

  lemma {:induction false} SameLast(s: seq<Entry>, x: Entry, t: seq<Entry>, y: Entry)
    requires s + [x] == t + [y]
    ensures s == t && x == y
  {
    assert (s + [x])[..|s|] == s && (t + [y])[..|t|] == t;
    assert (s + [x])[|s|] == x && (t + [y])[|t|] == y;
  }

  lemma {:induction false} DictsSnoc(blocks: seq<seq<Pair>>, pairs: seq<Pair>)
    ensures Dicts(blocks + [pairs]) == Dicts(blocks) + [Dict(pairs)]
  {
  }

  /** The reader itself; None is a crash. */
  method ParseExceptions(raws: seq<string>) returns (r: Option<seq<Entry>>)
    ensures r == Parse(raws)
  {
    var exceptions: seq<Entry> := [];
    var current: Option<Entry> := None;
    for i := 0 to |raws|
      invariant Read(exceptions, current, Classified(raws)[..i])
    {
      ghost var done := Classified(raws)[..i];
      ghost var kind := Classify(raws[i]);
      assert Classified(raws)[..i + 1] == done + [kind];
      var line := Strip(raws[i]);
      if line == "" || StartsWith(line, "#") {
        ReadMore(exceptions, current, done, kind);
        continue;
      }
      if StartsWith(line, "version:") || StartsWith(line, "exceptions:") {
        ReadMore(exceptions, current, done, kind);
        continue;
      }
      if StartsWith(line, "- ") {
        DashHasContent(raws[i]);
        if kind.Start? {
          ReadMore(exceptions, current, done, kind);
        }
        if current.Some? && current.value != map[] {
          exceptions := exceptions + [current.value];
        }
        current := Some(map[]);
        line := Strip(line[2..]);
        if line != "" {
          var kv := SplitKV(line);
          if kv.None? {
            assert Classified(raws)[i] == Malformed;
            return None;
          }
          current := Some(WithPair(current.value, kv.value));
        }
        continue;
      }
      ReadMore(exceptions, current, done, kind);
      if current.Some? && Colon(line) < |line| {
        current := Some(WithPair(current.value, SplitKV(line).value));
      }
    }
    assert Classified(raws)[..|raws|] == Classified(raws);
    if current.Some? && current.value != map[] {
      exceptions := exceptions + [current.value];
    }
    return Some(exceptions);
  }

  lemma {:induction false} StripKeepsColons(s: string)
    ensures ':' in Strip(s) <==> ':' in s
  {
    var pre, post := StripSplits(s);
    hide Strip;
    assert ':' !in pre && ':' !in post;
  }

  /** A line without a colon whose content starts with a dash and a space. */
  predicate DashWithoutColon(raw: string) {
    StartsWith(Strip(raw), "- ") && ':' !in raw
  }

  lemma {:induction false} MalformedIff(raw: string)
    ensures Classify(raw).Malformed? <==> DashWithoutColon(raw)
  {
    var line := Strip(raw);
    StripKeepsColons(raw);
    hide Strip;
    if StartsWith(line, "- ") {
      var rest := Strip(line[2..]);
      StripKeepsColons(line[2..]);
      ColonFound(rest);
      assert line[0] == '-' && line[1] == ' ';
      assert line == ['-', ' '] + line[2..];
    }
  }

  /** The reader crashes exactly on a file with a dash line that has no colon. */
  lemma {:induction false} ReaderCrashesIff(raws: seq<string>)
    ensures Parse(raws).None? <==> exists i :: 0 <= i < |raws| && DashWithoutColon(raws[i])
  {
    forall i | 0 <= i < |raws|
      ensures Classified(raws)[i].Malformed? <==> DashWithoutColon(raws[i])
    {
      MalformedIff(raws[i]);
    }
  }

  /**
   * What the reader skips, whether or not an entry has begun: empty lines, comments, the two headers, and a
   * line without a colon that begins no entry.
   */
  lemma {:induction false} IgnoredIff(raw: string)
    ensures var t := Strip(raw);
            Classify(raw).Ignored? <==>
              t == "" || "#" <= t || "version:" <= t || "exceptions:" <= t || (':' !in raw && !("- " <= t))
  {
    StripKeepsColons(raw);
    ColonFound(Strip(raw));
  }

  /** Which lines begin an entry and which continue one, and the pair that they give. */
  lemma {:induction false} PairIff(raw: string)
    ensures var t := Strip(raw);
            && (Classify(raw).Start? <==> "- " <= t && ':' in raw)
            && (Classify(raw).Start? ==> SplitKV(Strip(t[2..])) == Some(Classify(raw).pair))
            && (Classify(raw).More? <==>
                  ':' in raw && !("- " <= t) && !("#" <= t) && !("version:" <= t) && !("exceptions:" <= t))
            && (Classify(raw).More? ==> SplitKV(t) == Some(Classify(raw).pair))
  {
    IgnoredIff(raw);
    MalformedIff(raw);
    StripKeepsColons(raw);
    ColonFound(Strip(raw));
    var t := Strip(raw);
    if "- " <= t {
      assert t[0] == '-';
      assert !("#" <= t) && !("version:" <= t) && !("exceptions:" <= t) && t != "";
    }
  }

  lemma {:induction false} BlocksSkip(a: seq<Line>, b: seq<Line>)
    ensures Blocks(a + [Ignored] + b) == Blocks(a + b)
  {
    BlocksSnoc(a, Ignored);
    if b == [] {
      assert a + [Ignored] + b == a + [Ignored] && a + b == a;
    } else {
      var init, last := b[..|b| - 1], b[|b| - 1];
      BlocksSkip(a, init);
      BlocksSnoc(a + [Ignored] + init, last);
      BlocksSnoc(a + init, last);
      assert a + [Ignored] + b == (a + [Ignored] + init) + [last] && a + b == (a + init) + [last];
    }
  }

  /** A line that is skipped can be put anywhere in a file, or taken out of it, without changing what is read. */
  lemma {:induction false} SkippedLinesDoNotMatter(a: seq<string>, raw: string, b: seq<string>)
    requires var t := Strip(raw); t == "" || "#" <= t || "version:" <= t || "exceptions:" <= t
    ensures Parse(a + [raw] + b) == Parse(a + b)
  {
    IgnoredIff(raw);
    var x, y := Classified(a), Classified(b);
    hide Classify, Strip, Blocks;
    assert Classified(a + [raw] + b) == x + [Ignored] + y;
    assert Classified(a + b) == x + y;
    BlocksSkip(x, y);
    assert Malformed in x + [Ignored] + y <==> Malformed in x + y;
  }

  // ---------------------------------------------------------------- which line ends up where

  predicate IsStart(line: Line) { line.Start? }

  predicate IsPair(line: Line) { line.Start? || line.More? }

  /** The number of entries begun up to and including line `j`: line `j` belongs to the latest of them. */
  function Begun(lines: seq<Line>, j: nat): nat
    requires j < |lines|
  {
    |Filter(IsStart, lines[..j + 1])|
  }

  /** Line `j` sets `key` in the entry with index `e`. */
  predicate Sets(lines: seq<Line>, j: nat, e: nat, key: string) {
    j < |lines| && IsPair(lines[j]) && lines[j].pair.key == key && Begun(lines, j) == e + 1
  }

  /** There are as many entries as lines that begin one. */
  lemma {:induction false} OneEntryPerStart(lines: seq<Line>)
    ensures |Blocks(lines)| == |Filter(IsStart, lines)|
  {
    if lines != [] {
      OneEntryPerStart(lines[..|lines| - 1]);
    }
  }

  lemma {:induction false} SetsInPrefix(lines: seq<Line>, j: nat, e: nat, key: string)
    requires lines != [] && j < |lines| - 1
    ensures Sets(lines, j, e, key) <==> Sets(lines[..|lines| - 1], j, e, key)
  {
    assert lines[..|lines| - 1][..j + 1] == lines[..j + 1];
  }

  /** Line `j` is the last one that sets `key` in entry `e`. */
  ghost predicate LastSets(lines: seq<Line>, j: nat, e: nat, key: string) {
    Sets(lines, j, e, key) && forall i: nat :: j < i < |lines| ==> !Sets(lines, i, e, key)
  }

  lemma {:induction false} BegunAtEnd(lines: seq<Line>, j: nat)
    requires j < |lines|
    ensures Begun(lines, j) <= |Blocks(lines)|
    ensures j == |lines| - 1 ==> Begun(lines, j) == |Blocks(lines)|
  {
    OneEntryPerStart(lines);
    FilterAppend(IsStart, lines[..j + 1], lines[j + 1..]);
    assert lines[..j + 1] + lines[j + 1..] == lines;
    assert j == |lines| - 1 ==> lines[..j + 1] == lines;
  }

  /** The last line wins: the value of a key is the one that the last line for it in the entry gives. */
  lemma {:induction false} LastLineWins(lines: seq<Line>, j: nat, e: nat, key: string)
    requires LastSets(lines, j, e, key)
    ensures e < |Blocks(lines)|
    ensures var entry := Dict(Blocks(lines)[e]); key in entry && entry[key] == lines[j].pair.value
    decreases |lines|
  {
    var last := |lines| - 1;
    var init := lines[..last];
    BegunAtEnd(lines, j);
    BegunAtEnd(lines, last);
    var before := Blocks(init);
    if j == last {
      if lines[last].More? {
        DictSnoc(before[e], lines[last].pair);
      } else {
        DictSnoc([], lines[last].pair);
        assert [] + [lines[last].pair] == [lines[last].pair];
      }
    } else {
      forall i: nat | i < last
        ensures Sets(init, i, e, key) <==> Sets(lines, i, e, key)
      {
        SetsInPrefix(lines, i, e, key);
      }
      LastLineWins(init, j, e, key);
      assert !Sets(lines, last, e, key);
      if lines[last].More? && e == |before| - 1 {
        DictSnoc(before[e], lines[last].pair);
      }
    }
  }

  lemma {:induction false} KeyWasThere(lines: seq<Line>, e: nat, key: string)
    requires lines != [] && e < |Blocks(lines)| && key in Dict(Blocks(lines)[e]) && !Sets(lines, |lines| - 1, e, key)
    ensures var before := Blocks(lines[..|lines| - 1]); e < |before| && key in Dict(before[e])
  {
    var last := |lines| - 1;
    var before := Blocks(lines[..last]);
    BegunAtEnd(lines, last);
    var p := if IsPair(lines[last]) then lines[last].pair else Pair("", "");
    DictOne(p);
    if before != [] {
      DictSnoc(before[|before| - 1], p);
    }
    hide Begun, Dict;
  }

  lemma {:induction false} DictOne(p: Pair)
    ensures Dict([p]) == map[p.key := p.value]
  {
    assert [p][..0] == [];
  }

  /** Nothing else is in an entry: every key of it comes from a line that belongs to the entry. */
  lemma {:induction false} KeysComeFromLines(lines: seq<Line>, e: nat, key: string) returns (j: nat)
    requires e < |Blocks(lines)| && key in Dict(Blocks(lines)[e])
    ensures LastSets(lines, j, e, key)
    decreases |lines|
  {
    var last := |lines| - 1;
    if Sets(lines, last, e, key) {
      j := last;
    } else {
      KeyWasThere(lines, e, key);
      hide Blocks, Dict;
      var init := lines[..last];
      j := KeysComeFromLines(init, e, key);
      forall i: nat | i < last
        ensures Sets(init, i, e, key) <==> Sets(lines, i, e, key)
      {
        SetsInPrefix(lines, i, e, key);
      }
      hide Sets;
    }
  }

  // ---------------------------------------------------------------- writing an exception list

  /** How a value is written: as it is, or in one kind of quotes. */
  datatype Style = Plain | Quoted(quote: char)

  datatype Item = Item(indent: string, key: string, value: string, style: Style)

  function Written(item: Item): string {
    match item.style
    case Plain => item.value
    case Quoted(q) => [q] + item.value + [q]
  }

  /** A plain value has no white space and no pair of quotes at its ends; a quoted one may be anything. */
  predicate Writable(item: Item) {
    && Blank(item.indent) && Trimmed(item.key) && ':' !in item.key
    && match item.style
       case Plain => Trimmed(item.value) && !InQuotes(item.value)
       case Quoted(q) => q == '"' || q == '\''
  }

  /** A key line that is not the first of its entry must not look like a comment, a header or a new entry. */
  predicate Continues(item: Item) {
    && !StartsWith(item.key, "#") && !StartsWith(item.key, "- ")
    && item.key != "version" && item.key != "exceptions"
  }

  function Body(item: Item): string {
    item.key + ": " + Written(item)
  }

  function RenderEntry(items: seq<Item>): seq<string> {
    seq(|items|, i requires 0 <= i < |items| => items[i].indent + (if i == 0 then "- " else "") + Body(items[i]))
  }

  function Render(entries: seq<seq<Item>>): seq<string> {
    if entries == [] then [] else Render(entries[..|entries| - 1]) + RenderEntry(entries[|entries| - 1])
  }

  ghost predicate Renderable(entries: seq<seq<Item>>) {
    forall e :: 0 <= e < |entries| ==> RenderableEntry(entries[e])
  }

  ghost predicate RenderableEntry(items: seq<Item>) {
    && items != []
    && (forall i :: 0 <= i < |items| ==> Writable(items[i]))
    && forall i :: 0 < i < |items| ==> Continues(items[i])
  }

  function PairOf(item: Item): Pair {
    Pair(item.key, item.value)
  }

  function Pairs(items: seq<Item>): (r: seq<Pair>)
    ensures |r| == |items|
  {
    seq(|items|, i requires 0 <= i < |items| => PairOf(items[i]))
  }

  lemma {:induction false} ColonAt(key: string, rest: string)
    requires ':' !in key
    ensures Colon(key + ":" + rest) == |key|
  {
    var s := key + ":" + rest;
    if key == [] {
      assert s[0] == ':';
    } else {
      assert key[0] in key;
      assert s[1..] == key[1..] + ":" + rest;
      ColonAt(key[1..], rest);
    }
  }

  /** Stripping the body of a line loses at most the space in front of an empty value. */
  function StrippedBody(item: Item): string {
    item.key + ":" + if Written(item) == "" then "" else " " + Written(item)
  }

  lemma {:induction false} WrittenTrimmed(item: Item)
    requires Writable(item)
    ensures Trimmed(Written(item)) && Unquote(Written(item)) == item.value
  {
    UnquoteIff(Written(item));
    if item.style.Quoted? {
      var w := Written(item);
      assert w[0] == item.style.quote && w[|w| - 1] == item.style.quote;
      assert w[1..|w| - 1] == item.value;
    }
  }

  lemma {:induction false} BodyStripped(pre: string, item: Item)
    requires Blank(pre) && Writable(item)
    ensures Strip(pre + Body(item)) == StrippedBody(item)
  {
    WrittenTrimmed(item);
    var w, t := Written(item), StrippedBody(item);
    assert t[0] == if item.key == "" then ':' else item.key[0];
    assert t[|t| - 1] == if w == "" then ':' else w[|w| - 1];
    var post := if w == "" then " " else "";
    assert pre + Body(item) == pre + t + post;
    StripPadded(pre, t, post);
  }

  lemma {:induction false} BodySplit(item: Item)
    requires Writable(item)
    ensures SplitKV(StrippedBody(item)) == Some(PairOf(item))
  {
    WrittenTrimmed(item);
    var w, t := Written(item), StrippedBody(item);
    var tail := if w == "" then "" else " " + w;
    ColonAt(item.key, tail);
    assert t[..|item.key|] == item.key && t[|item.key| + 1..] == tail;
    if item.key != "" {
      StripPadded("", item.key, "");
      assert "" + item.key + "" == item.key;
    }
    if w != "" {
      StripPadded(" ", w, "");
      assert " " + w + "" == tail;
    }
  }

  lemma {:induction false} StrippedEnds(item: Item)
    requires Writable(item)
    ensures var t := StrippedBody(item); t != [] && Trimmed(t)
    ensures item.key != "" ==> StrippedBody(item)[0] == item.key[0]
    ensures item.key == "" ==> StrippedBody(item)[0] == ':'
  {
    WrittenTrimmed(item);
    var w, t := Written(item), StrippedBody(item);
    assert t[|t| - 1] == if w == "" then ':' else w[|w| - 1];
  }

  lemma {:induction false} FirstLineStripped(item: Item)
    requires Writable(item)
    ensures Strip(item.indent + "- " + Body(item)) == "- " + StrippedBody(item)
  {
    var w, t := Written(item), StrippedBody(item);
    StrippedEnds(item);
    hide Writable;
    var line := "- " + t;
    var post := if w == "" then " " else "";
    assert item.indent + "- " + Body(item) == item.indent + line + post;
    assert line[|line| - 1] == t[|t| - 1];
    StripPadded(item.indent, line, post);
  }

  lemma {:induction false} FirstLineReadBack(item: Item)
    requires Writable(item)
    ensures Classify(item.indent + "- " + Body(item)) == Start(PairOf(item))
  {
    var t := StrippedBody(item);
    FirstLineStripped(item);
    BodySplit(item);
    StrippedEnds(item);
    StripPadded("", t, "");
    assert "" + t + "" == t;
    DashLine(t);
    hide Strip, SplitKV, StrippedBody, Writable, Trimmed, Body, StartsWith;
  }

  lemma {:induction false} DashLine(t: string)
    ensures var line := "- " + t;
            && line != "" && StartsWith(line, "- ") && line[2..] == t
            && !StartsWith(line, "#") && !StartsWith(line, "version:") && !StartsWith(line, "exceptions:")
  {
    var line := "- " + t;
    assert line[0] == '-';
    assert forall p: string :: p != "" && p[0] != '-' ==> !StartsWith(line, p) by {
      forall p: string | p != "" && p[0] != '-'
        ensures !StartsWith(line, p)
      {
        assert |p| <= |line| ==> line[..|p|][0] == '-';
      }
    }
  }

  lemma {:induction false} FurtherLineReadBack(item: Item)
    requires Writable(item) && Continues(item)
    ensures Classify(item.indent + "" + Body(item)) == More(PairOf(item))
  {
    assert item.indent + "" == item.indent;
    BodyStripped(item.indent, item);
    BodySplit(item);
    StrippedEnds(item);
    NoHeader(item);
    hide Strip, SplitKV, StrippedBody, Writable, Trimmed, Body, Continues, StartsWith;
  }

  lemma {:induction false} NoHeader(item: Item)
    requires Writable(item) && Continues(item)
    ensures var t := StrippedBody(item);
            && !StartsWith(t, "#") && !StartsWith(t, "- ") && !StartsWith(t, "version:") &&
              !StartsWith(t, "exceptions:")
            && Colon(t) < |t|
  {
    var t := StrippedBody(item);
    var tail := t[|item.key| + 1..];
    ColonAt(item.key, tail);
    assert t == item.key + ":" + tail;
    assert t[|item.key|] == ':' && t[..|item.key|] == item.key;
    hide StrippedBody, Written, Colon;
    NoPrefix(item.key, t, "version");
    NoPrefix(item.key, t, "exceptions");
    assert "version" + ":" == "version:" && "exceptions" + ":" == "exceptions:";
    if item.key != "" {
      assert t[0] == item.key[0];
      assert item.key[..1] == [item.key[0]];
    }
    if |item.key| >= 2 {
      assert t[..2] == item.key[..2];
    } else if |t| >= 2 {
      assert item.key != "" ==> t[1] == ':';
      assert t[..2][1] == t[1] && t[..2][0] == t[0];
    }
  }

  lemma {:induction false} NoPrefix(key: string, t: string, word: string)
    requires |key| < |t| && t[..|key|] == key && t[|key|] == ':' && ':' !in key && ':' !in word
    requires key != word
    ensures !StartsWith(t, word + ":")
  {
    var prefix := word + ":";
    if |key| < |word| {
      assert word[|key|] in word;
      assert prefix[|key|] == word[|key|] != ':';
      assert |prefix| <= |t| ==> t[..|prefix|][|key|] == ':';
    } else if |key| > |word| {
      assert key[|word|] in key;
      assert prefix[|word|] == ':' && t[..|prefix|][|word|] == t[|word|] == key[|word|];
    } else {
      assert t[..|prefix|][..|word|] == t[..|word|] == key;
      assert prefix[..|word|] == word;
    }
  }

  lemma {:induction false} EntryReadBack(lines: seq<Line>, items: seq<Item>, n: nat)
    requires RenderableEntry(items) && n <= |items|
    ensures Blocks(lines + Classified(RenderEntry(items)[..n])) ==
              if n == 0 then Blocks(lines) else Blocks(lines) + [Pairs(items)[..n]]
    ensures Malformed !in Classified(RenderEntry(items)[..n])
  {
    hide Classify, Blocks, Body, Writable, Continues;
    var raws := RenderEntry(items);
    if n == 0 {
      assert lines + Classified(raws[..0]) == lines;
    } else {
      EntryReadBack(lines, items, n - 1);
      var line := if n == 1 then Start(PairOf(items[n - 1])) else More(PairOf(items[n - 1]));
      if n == 1 {
        FirstLineReadBack(items[0]);
      } else {
        FurtherLineReadBack(items[n - 1]);
      }
      var before := Classified(raws[..n - 1]);
      assert Classified(raws[..n]) == before + [line];
      assert lines + Classified(raws[..n]) == (lines + before) + [line];
      BlocksSnoc(lines + before, line);
      assert Pairs(items)[..n] == Pairs(items)[..n - 1] + [PairOf(items[n - 1])];
      hide Classified, RenderEntry, RenderableEntry;
      if n > 1 {
        var b := Blocks(lines) + [Pairs(items)[..n - 1]];
        assert b[..|b| - 1] == Blocks(lines);
      } else {
        assert Pairs(items)[..1] == [PairOf(items[0])];
      }
    }
  }

  function AllPairs(entries: seq<seq<Item>>): (r: seq<seq<Pair>>)
    ensures |r| == |entries|
  {
    seq(|entries|, e requires 0 <= e < |entries| => Pairs(entries[e]))
  }

  lemma {:induction false} NoBlocks()
    ensures Blocks([]) == []
  {
  }

  lemma {:induction false} NotEmpty(items: seq<Item>)
    requires RenderableEntry(items)
    ensures items != []
  {
  }

  lemma {:induction false} RenderedLength(items: seq<Item>)
    ensures |RenderEntry(items)| == |items|
  {
  }

  lemma {:induction false} BlocksReadBack(entries: seq<seq<Item>>)
    requires Renderable(entries)
    ensures Blocks(Classified(Render(entries))) == AllPairs(entries) && Malformed !in Classified(Render(entries))
  {
    hide Classify, Blocks, RenderEntry, RenderableEntry, Pairs;
    if entries == [] {
      NoBlocks();
      assert Classified(Render(entries)) == [];
    } else {
      var init, last := entries[..|entries| - 1], entries[|entries| - 1];
      BlocksReadBack(init);
      var raws := RenderEntry(last);
      RenderedLength(last);
      assert last != [] by { NotEmpty(last); }
      assert raws[..|last|] == raws && Pairs(last)[..|last|] == Pairs(last);
      EntryReadBack(Classified(Render(init)), last, |last|);
      assert Classified(Render(entries)) == Classified(Render(init)) + Classified(raws);
      assert AllPairs(entries) == AllPairs(init) + [Pairs(last)];
    }
  }

  /**
   * The round trip: any list of non-empty entries, written line by line, is read back as exactly that
   * list of entries. Values may hold colons, and in quotes any other character.
   */
  lemma {:induction false} RoundTrip(entries: seq<seq<Item>>)
    requires Renderable(entries)
    ensures Parse(Render(entries)) == Some(Dicts(AllPairs(entries)))
  {
    BlocksReadBack(entries);
  }

  // ---------------------------------------------------------------- the text of the file

  predicate IsNewline(c: char) {
    c == '\n' || c == '\r'
  }

  function Newline(text: string): (n: nat)
    ensures n <= |text|
    ensures n < |text| ==> IsNewline(text[n])
  {
    if text == [] || IsNewline(text[0]) then 0 else 1 + Newline(text[1..])
  }

  /** The lines that reading the file yields; every kind of line end arrives as a line feed. */
  function Lines(text: string): seq<string>
    decreases |text|
  {
    if text == [] then []
    else
      var n := Newline(text);
      if n == |text| then [text]
      else
        var end := if text[n] == '\r' && n + 1 < |text| && text[n + 1] == '\n' then n + 2 else n + 1;
        [text[..n] + "\n"] + Lines(text[end..])
  }

  predicate IsLineEnd(end: string) {
    end == "\n" || end == "\r\n" || end == "\r"
  }

  function Text(lines: seq<string>, end: string): string {
    if lines == [] then "" else lines[0] + end + Text(lines[1..], end)
  }

  /** The lines as they arrive, each with a line feed. */
  function Terminated(lines: seq<string>): (r: seq<string>)
    ensures |r| == |lines| && forall i :: 0 <= i < |lines| ==> r[i] == lines[i] + "\n"
  {
    if lines == [] then [] else [lines[0] + "\n"] + Terminated(lines[1..])
  }

  predicate OneLine(s: string) {
    forall i :: 0 <= i < |s| ==> !IsNewline(s[i])
  }

  lemma {:induction false} NewlineAfter(line: string, rest: string)
    requires OneLine(line) && (rest == "" || IsNewline(rest[0]))
    ensures Newline(line + rest) == |line|
  {
    var text := line + rest;
    if line == [] {
      assert text == rest;
    } else {
      assert text[0] == line[0] && text[1..] == line[1..] + rest;
      NewlineAfter(line[1..], rest);
    }
  }

  lemma {:induction false} StartOfText(lines: seq<string>, end: string, last: string)
    requires IsLineEnd(end) && OneLine(last) && forall i :: 0 <= i < |lines| ==> OneLine(lines[i])
    ensures var text := Text(lines, end) + last; text != "" ==> !IsNewline(text[0]) || text[0] == end[0]
  {
    var text := Text(lines, end) + last;
    if lines != [] {
      assert text == lines[0] + end + (Text(lines[1..], end) + last);
      assert text[0] == if lines[0] == "" then end[0] else lines[0][0];
    }
  }

  lemma {:induction false} LinesFrom(line: string, end: string, rest: string)
    requires IsLineEnd(end) && OneLine(line) && (rest != "" ==> !IsNewline(rest[0]) || rest[0] == end[0])
    ensures Lines(line + end + rest) == [line + "\n"] + Lines(rest)
  {
    var n, text := |line|, line + end + rest;
    assert text == line + (end + rest) && text[..n] == line;
    NewlineAfter(line, end + rest);
    assert text[n..] == end + rest && text[n] == end[0];
    assert text[n + |end|..] == rest;
    assert |end| == 2 ==> text[n + 1] == '\n';
    assert |end| == 1 && n + 1 < |text| ==> text[n + 1] == rest[0];
  }

  /** A text is read line by line whatever the line ends are; the last line needs none. */
  lemma {:induction false} LinesOfText(lines: seq<string>, end: string, last: string)
    requires IsLineEnd(end) && OneLine(last) && forall i :: 0 <= i < |lines| ==> OneLine(lines[i])
    ensures Lines(Text(lines, end) + last) == Terminated(lines) + if last == "" then [] else [last]
  {
    var text := Text(lines, end) + last;
    if lines == [] {
      assert text == last && last + "" == last;
      NewlineAfter(last, "");
    } else {
      var rest := Text(lines[1..], end) + last;
      assert text == lines[0] + end + rest;
      StartOfText(lines[1..], end, last);
      hide Text, Lines, OneLine;
      LinesFrom(lines[0], end, rest);
      LinesOfText(lines[1..], end, last);
      assert Terminated(lines) == [lines[0] + "\n"] + Terminated(lines[1..]);
    }
  }

  lemma {:induction false} StripNewline(s: string)
    ensures Strip(s + "\n") == Strip(s)
  {
    var pre, post := StripSplits(s);
    var t := Strip(s);
    if t == [] {
      assert Blank(s + "\n");
      StripLeftPadded(s + "\n", []);
      assert s + "\n" + [] == s + "\n";
    } else {
      StripPadded(pre, t, post + "\n");
      assert pre + t + (post + "\n") == s + "\n";
    }
  }

  ghost predicate NewlineFree(entries: seq<seq<Item>>) {
    forall e, i :: 0 <= e < |entries| && 0 <= i < |entries[e]| ==>
        OneLine(entries[e][i].indent) && OneLine(entries[e][i].key) && OneLine(entries[e][i].value)
  }

  lemma {:induction false} RenderedOnOneLine(entries: seq<seq<Item>>)
    requires Renderable(entries) && NewlineFree(entries)
    ensures forall k :: 0 <= k < |Render(entries)| ==> OneLine(Render(entries)[k])
  {
    if entries != [] {
      var init, last := entries[..|entries| - 1], entries[|entries| - 1];
      RenderedOnOneLine(init);
      assert RenderableEntry(last);
      forall i | 0 <= i < |last|
        ensures OneLine(RenderEntry(last)[i])
      {
        assert Writable(last[i]);
        assert last[i] == entries[|entries| - 1][i];
        assert OneLine(last[i].indent) && OneLine(last[i].key) && OneLine(Written(last[i]));
      }
    }
  }

  /** Reading a text is reading its lines, with any kind of line end, and with or without one at the very end. */
  lemma {:induction false} TextReads(lines: seq<string>, end: string, last: string)
    requires IsLineEnd(end) && OneLine(last) && forall i :: 0 <= i < |lines| ==> OneLine(lines[i])
    ensures Parse(Lines(Text(lines, end) + last)) == Parse(lines + if last == "" then [] else [last])
  {
    LinesOfText(lines, end, last);
    forall i | 0 <= i < |lines|
      ensures Classify(lines[i] + "\n") == Classify(lines[i])
    {
      StripNewline(lines[i]);
    }
    hide Classify, Lines, Text;
    assert Classified(Lines(Text(lines, end) + last)) == Classified(lines + if last == "" then [] else [last]);
  }

  /** The same for the file as a text, if no indentation, key or value contains a line end. */
  lemma {:induction false} TextRoundTrip(entries: seq<seq<Item>>, end: string)
    requires Renderable(entries) && NewlineFree(entries) && IsLineEnd(end)
    ensures Parse(Lines(Text(Render(entries), end))) == Some(Dicts(AllPairs(entries)))
  {
    RoundTrip(entries);
    RenderedOnOneLine(entries);
    TextReads(Render(entries), end, "");
    hide Parse, Lines, Text, Render;
    assert Text(Render(entries), end) + "" == Text(Render(entries), end);
    assert Render(entries) + [] == Render(entries);
  }
}
