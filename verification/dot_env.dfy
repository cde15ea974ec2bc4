/** The test helper `DotEnv`: a string map filled from the lines of a
    `.env.local` file and consulted before the process environment. The file is
    given as its lines (`None` when it does not exist) and the environment as a
    map (a missing key is a null variable). */
module DotEnv {
  import opened Wrappers
  import opened Seqs

  const Separator: char := '='

  // ---- String.Split(sep) and String.Split(sep, RemoveEmptyEntries) ----

  /** `s.Split(sep)`: the pieces between separators, empty pieces included. */
  function SplitAll(s: string, sep: char): (parts: seq<string>)
    ensures |parts| > 0
    ensures forall i :: 0 <= i < |parts| ==> sep !in parts[i]
  {
    if |s| == 0 then [""]
    else
      var rest := SplitAll(s[1..], sep);
      if s[0] == sep then [""] + rest
      else [[s[0]] + rest[0]] + rest[1..]
  }

  /** `String.Join(sep, parts)`. */
  function Join(parts: seq<string>, sep: char): string
    requires |parts| > 0
  {
    if |parts| == 1 then parts[0] else parts[0] + [sep] + Join(parts[1..], sep)
  }

  /** Splitting loses nothing: joining the pieces with the separator gives the string back. */
  lemma {:induction false} JoinSplit(s: string, sep: char)
    ensures Join(SplitAll(s, sep), sep) == s
  {
    if |s| > 0 {
      var rest := SplitAll(s[1..], sep);
      JoinSplit(s[1..], sep);
      if s[0] == sep {
        assert SplitAll(s, sep)[1..] == rest;
        assert s == [sep] + s[1..];
      } else {
        var parts := SplitAll(s, sep);
        if |rest| == 1 {
          assert s == [s[0]] + s[1..];
        } else {
          assert parts[1..] == rest[1..];
          assert Join(rest, sep) == rest[0] + [sep] + Join(rest[1..], sep);
          assert s == [s[0]] + s[1..];
        }
      }
    }
  }

  /** Splitting at a separator splits the pieces there. */
  lemma {:induction false} SplitAtSeparator(x: string, y: string, sep: char)
    ensures SplitAll(x + [sep] + y, sep) == SplitAll(x, sep) + SplitAll(y, sep)
  {
    if |x| == 0 {
      assert x + [sep] + y == [sep] + y;
      assert (x + [sep] + y)[1..] == y;
    } else {
      assert (x + [sep] + y)[1..] == x[1..] + [sep] + y;
      SplitAtSeparator(x[1..], y, sep);
    }
  }

  /** A string without the separator is a single piece. */
  lemma {:induction false} SplitWithoutSeparator(x: string, sep: char)
    requires sep !in x
    ensures SplitAll(x, sep) == [x]
  {
    if |x| > 0 {
      SplitWithoutSeparator(x[1..], sep);
      assert x == [x[0]] + x[1..];
    }
  }

  /** The `RemoveEmptyEntries` option: the non-empty pieces, in order. */
  function RemoveEmpty(parts: seq<string>): (r: seq<string>)
    ensures |r| <= |parts|
    ensures forall i :: 0 <= i < |r| ==> r[i] != [] && r[i] in parts
    ensures forall i :: 0 <= i < |parts| && parts[i] != [] ==> parts[i] in r
    ensures |parts| == 1 ==> r == (if parts[0] == [] then [] else parts)
    ensures (forall i :: 0 <= i < |parts| ==> parts[i] != []) ==> r == parts
  {
    if |parts| == 0 then []
    else if parts[0] == [] then RemoveEmpty(parts[1..])
    else [parts[0]] + RemoveEmpty(parts[1..])
  }

  lemma {:induction false} RemoveEmptyAppend(a: seq<string>, b: seq<string>)
    ensures RemoveEmpty(a + b) == RemoveEmpty(a) + RemoveEmpty(b)
  {
    if |a| > 0 {
      assert (a + b)[1..] == a[1..] + b;
      RemoveEmptyAppend(a[1..], b);
    } else {
      assert a + b == b;
    }
  }

  /** `line.Split('=', StringSplitOptions.RemoveEmptyEntries)`. */
  function Tokens(line: string): (ts: seq<string>)
    ensures forall i :: 0 <= i < |ts| ==> ts[i] != [] && Separator !in ts[i]
  {
    RemoveEmpty(SplitAll(line, Separator))
  }

  /** A run of `n` separators. */
  function Separators(n: nat): (s: string)
    ensures |s| == n && forall i :: 0 <= i < n ==> s[i] == Separator
  {
    if n == 0 then [] else [Separator] + Separators(n - 1)
  }

  /** A run of separators holds no token. */
  lemma {:induction false} SeparatorsHaveNoTokens(n: nat)
    ensures Tokens(Separators(n)) == []
  {
    if n > 0 {
      var s := Separators(n);
      assert s[1..] == Separators(n - 1);
      SeparatorsHaveNoTokens(n - 1);
      assert SplitAll(s, Separator) == [""] + SplitAll(Separators(n - 1), Separator);
      assert ([""] + SplitAll(Separators(n - 1), Separator))[1..] == SplitAll(Separators(n - 1), Separator);
    }
  }

  /** One line of the file: its two tokens as key and value, or nothing when
      the line does not split into exactly two tokens. */
  function ParseLine(line: string): (r: Option<(string, string)>)
    ensures r.Some? <==> |Tokens(line)| == 2
    ensures r.Some? ==> r.value == (Tokens(line)[0], Tokens(line)[1])
  {
    var parts := Tokens(line);
    if |parts| != 2 then None else Some((parts[0], parts[1]))
  }

  /** Tokens on both sides of a separator are the tokens of the whole. */
  lemma TokensAtSeparator(x: string, y: string)
    ensures Tokens(x + [Separator] + y) == Tokens(x) + Tokens(y)
  {
    SplitAtSeparator(x, y, Separator);
    RemoveEmptyAppend(SplitAll(x, Separator), SplitAll(y, Separator));
  }

  /** A non-empty string without '=' is a single token. */
  lemma SingleToken(x: string)
    requires x != [] && Separator !in x
    ensures Tokens(x) == [x]
  {
    SplitWithoutSeparator(x, Separator);
  }

  /** Leading separators add no token. */
  lemma {:induction false} TokensAfterRun(n: nat, s: string)
    ensures Tokens(Separators(n) + s) == Tokens(s)
  {
    if n > 0 {
      assert Separators(n) + s == [] + [Separator] + (Separators(n - 1) + s);
      TokensAtSeparator([], Separators(n - 1) + s);
      SingleTokenEmpty();
      TokensAfterRun(n - 1, s);
    } else {
      assert Separators(n) + s == s;
    }
  }

  /** Trailing separators add no token. */
  lemma TokensBeforeRun(s: string, n: nat)
    ensures Tokens(s + Separators(n)) == Tokens(s)
  {
    if n > 0 {
      assert s + Separators(n) == s + [Separator] + Separators(n - 1);
      TokensAtSeparator(s, Separators(n - 1));
      SeparatorsHaveNoTokens(n - 1);
    } else {
      assert s + Separators(n) == s;
    }
  }

  /** The empty string has no token. */
  lemma SingleTokenEmpty()
    ensures Tokens([]) == []
  {
  }

  /** A value followed by separators, after a run of separators, is one token. */
  lemma TokensOfValue(v: string, m: nat, after: nat)
    requires v != [] && Separator !in v
    ensures Tokens(Separators(m) + (v + Separators(after))) == [v]
  {
    TokensAfterRun(m, v + Separators(after));
    TokensBeforeRun(v, after);
    SingleToken(v);
  }

  /** An entry line regrouped around its first separator. */
  lemma EntryShape(k: string, v: string, between: nat, after: nat)
    requires between > 0
    ensures k + Separators(between) + v + Separators(after)
         == k + [Separator] + (Separators(between - 1) + (v + Separators(after)))
  {
    assert Separators(between) == [Separator] + Separators(between - 1);
    assert k + ([Separator] + Separators(between - 1)) + v + Separators(after)
        == k + [Separator] + (Separators(between - 1) + (v + Separators(after)));
  }

  /** A key, one or more separators, a value and trailing separators are two tokens. */
  lemma TokensOfEntry(k: string, v: string, between: nat, after: nat)
    requires k != [] && v != [] && Separator !in k && Separator !in v && between > 0
    ensures Tokens(k + Separators(between) + v + Separators(after)) == [k, v]
  {
    var rest := Separators(between - 1) + (v + Separators(after));
    EntryShape(k, v, between, after);
    TokensAtSeparator(k, rest);
    SingleToken(k);
    TokensOfValue(v, between - 1, after);
    assert Tokens(k) + Tokens(rest) == [k] + [v];
  }

  /** A key and a value separated by one or more '=', with any number of '='
      before and after, are read as that entry; nothing is trimmed. */
  lemma ParseLineAccepts(k: string, v: string, before: nat, between: nat, after: nat)
    requires k != [] && v != [] && Separator !in k && Separator !in v && between > 0
    ensures ParseLine(Separators(before) + k + Separators(between) + v + Separators(after)) == Some((k, v))
  {
    var entry := k + Separators(between) + v + Separators(after);
    var lead := Separators(before);
    Assoc(lead, k + Separators(between) + v, Separators(after));
    Assoc(lead, k + Separators(between), v);
    Assoc(lead, k, Separators(between));
    TokensAfterRun(before, entry);
    TokensOfEntry(k, v, between, after);
  }

  /** Leading separators: a line is a run of '=' followed by a rest that does
      not start with '=', and the run adds no token. */
  lemma {:induction false} LeadingRun(line: string) returns (n: nat, rest: string)
    ensures line == Separators(n) + rest
    ensures rest == [] || rest[0] != Separator
    ensures Tokens(line) == Tokens(rest)
    decreases |line|
  {
    if |line| > 0 && line[0] == Separator {
      var m, r := LeadingRun(line[1..]);
      n, rest := m + 1, r;
      assert line == [Separator] + line[1..];
      TokensAfterSeparator(line[1..]);
      assert Separators(n) == [Separator] + Separators(m);
      Assoc([Separator], Separators(m), r);
    } else {
      n, rest := 0, line;
    }
  }

  /** A leading '=' adds no token. */
  lemma TokensAfterSeparator(y: string)
    ensures Tokens([Separator] + y) == Tokens(y)
  {
    assert [] + [Separator] + y == [Separator] + y;
    TokensAtSeparator([], y);
    SingleTokenEmpty();
  }

  /** The position of the first '=' in a string that holds one. */
  lemma FirstSeparator(s: string) returns (i: nat)
    requires Separator in s
    ensures i < |s| && s[i] == Separator && Separator !in s[..i]
  {
    i := 0;
    while s[i] != Separator
      invariant i < |s| && Separator !in s[..i] && Separator in s[i..]
      decreases |s| - i
    {
      assert s[..i + 1] == s[..i] + [s[i]];
      i := i + 1;
    }
  }

  /** A rest that starts with a character other than '=' begins with a token,
      which runs up to the next '=' or to the end. */
  lemma FirstToken(rest: string) returns (k: string, tail: string)
    requires rest != [] && rest[0] != Separator
    ensures rest == k + tail && k != [] && Separator !in k
    ensures tail == [] || tail[0] == Separator
    ensures Tokens(rest) == [k] + Tokens(tail)
  {
    SingleTokenEmpty();
    if Separator in rest {
      var i := FirstSeparator(rest);
      var after := rest[i + 1..];
      k, tail := rest[..i], rest[i..];
      assert tail == [Separator] + after;
      assert rest == k + tail;
      Assoc(k, [Separator], after);
      TokensAtSeparator(k, after);
      SingleToken(k);
      TokensAfterSeparator(after);
    } else {
      k, tail := rest, [];
      SingleToken(rest);
    }
  }

  /** A non-empty line that does not start with '=' has at least one token. */
  lemma StartHasToken(s: string)
    ensures s != [] && s[0] != Separator ==> |Tokens(s)| > 0
  {
    if s != [] && s[0] != Separator {
      var k, tail := FirstToken(s);
    }
  }

  /** What follows the key of an entry line: one or more '=', the value, and a
      run of '='. */
  lemma ValueRun(t: string) returns (between: nat, after: nat)
    requires t == [] || t[0] == Separator
    requires |Tokens(t)| == 1
    ensures between > 0 && t == Separators(between) + Tokens(t)[0] + Separators(after)
  {
    var v := Tokens(t)[0];
    SingleTokenEmpty();
    var r2;
    between, r2 := LeadingRun(t);
    assert between > 0;
    StartHasToken(r2);
    var v1, t2 := FirstToken(r2);
    assert v1 == v && Tokens(t2) == [];
    var r3;
    after, r3 := LeadingRun(t2);
    StartHasToken(r3);
    assert r3 == [] && t2 == Separators(after);
    Assoc(Separators(between), v, t2);
  }

  /** Every line that is read as an entry has the shape `=*k=+v=*`. */
  lemma ParseLineShape(line: string) returns (before: nat, between: nat, after: nat)
    requires ParseLine(line).Some?
    ensures var (k, v) := ParseLine(line).value;
      between > 0 && line == Separators(before) + k + Separators(between) + v + Separators(after)
  {
    var k, v := Tokens(line)[0], Tokens(line)[1];
    SingleTokenEmpty();
    var r1;
    before, r1 := LeadingRun(line);
    assert Tokens(r1) == [k, v];
    var k1, t1 := FirstToken(r1);
    assert k1 == k && Tokens(t1) == [v];
    between, after := ValueRun(t1);
    var lead := Separators(before) + k;
    assert line == lead + t1 by {
      Assoc(Separators(before), k, t1);
    }
    Assoc(lead, Separators(between) + v, Separators(after));
    Assoc(lead, Separators(between), v);
  }

  /** The lines of the shape `=*k=+v=*`, for a key and a value without '='. */
  ghost predicate IsEntryLine(line: string, k: string, v: string) {
    && k != [] && v != [] && Separator !in k && Separator !in v
    && exists before: nat, between: nat, after: nat ::
         between > 0 && line == Separators(before) + k + Separators(between) + v + Separators(after)
  }

  /** A line is read as the entry (k, v) exactly when it has the shape `=*k=+v=*`. */
  lemma ParseLineIff(line: string, k: string, v: string)
    ensures ParseLine(line) == Some((k, v)) <==> IsEntryLine(line, k, v)
  {
    if ParseLine(line) == Some((k, v)) {
      var before, between, after := ParseLineShape(line);
      assert between > 0 && line == Separators(before) + k + Separators(between) + v + Separators(after);
    }
    if IsEntryLine(line, k, v) {
      var before: nat, between: nat, after: nat :|
        between > 0 && line == Separators(before) + k + Separators(between) + v + Separators(after);
      ParseLineAccepts(k, v, before, between, after);
    }
  }

  /** "A=B", "A==B" and "=A=B" all give A and B. */
  lemma ParseLineExamples()
    ensures ParseLine("A=B") == Some(("A", "B"))
    ensures ParseLine("A==B") == Some(("A", "B"))
    ensures ParseLine("=A=B") == Some(("A", "B"))
  {
    assert Separators(0) == "" && Separators(1) == "=" && Separators(2) == "==";
    ParseLineAccepts("A", "B", 0, 1, 0);
    assert Separators(0) + "A" + Separators(1) + "B" + Separators(0) == "A=B";
    ParseLineAccepts("A", "B", 0, 2, 0);
    assert Separators(0) + "A" + Separators(2) + "B" + Separators(0) == "A==B";
    ParseLineAccepts("A", "B", 1, 1, 0);
    assert Separators(1) + "A" + Separators(1) + "B" + Separators(0) == "=A=B";
  }

  /** No trimming: spaces around '=' stay part of the key and the value. */
  lemma ParseLineKeepsSpaces()
    ensures ParseLine(" A = B ") == Some((" A ", " B "))
  {
    assert Separators(0) == "" && Separators(1) == "=";
    ParseLineAccepts(" A ", " B ", 0, 1, 0);
    assert Separators(0) + " A " + Separators(1) + " B " + Separators(0) == " A = B ";
  }

  /** Lines that do not split into exactly two tokens are skipped: "A=B=C", "A=" and "". */
  lemma ParseLineRejects()
    ensures ParseLine("A=B=C") == None
    ensures ParseLine("A=") == None
    ensures ParseLine("") == None
  {
    assert "A=B=C" == "A" + [Separator] + ("B" + [Separator] + "C");
    TokensAtSeparator("A", "B" + [Separator] + "C");
    TokensAtSeparator("B", "C");
    SingleToken("A");
    SingleToken("B");
    SingleToken("C");
    assert "A=" == "A" + [Separator] + "";
    TokensAtSeparator("A", "");
    SingleTokenEmpty();
  }

  /** The text of a string with every '=' removed. */
  function WithoutSeparators(s: string): string {
    if |s| == 0 then []
    else if s[0] == Separator then WithoutSeparators(s[1..])
    else [s[0]] + WithoutSeparators(s[1..])
  }

  function Concat(parts: seq<string>): string {
    if |parts| == 0 then [] else parts[0] + Concat(parts[1..])
  }

  lemma {:induction false} ConcatSplit(s: string)
    ensures Concat(SplitAll(s, Separator)) == WithoutSeparators(s)
  {
    if |s| > 0 {
      ConcatSplit(s[1..]);
      var rest := SplitAll(s[1..], Separator);
      var parts := SplitAll(s, Separator);
      if s[0] == Separator {
        assert parts[1..] == rest;
      } else {
        assert parts[1..] == rest[1..];
        assert Concat(rest) == rest[0] + Concat(rest[1..]);
      }
    }
  }

  lemma {:induction false} ConcatRemoveEmpty(parts: seq<string>)
    ensures Concat(RemoveEmpty(parts)) == Concat(parts)
  {
    if |parts| > 0 {
      ConcatRemoveEmpty(parts[1..]);
      if parts[0] != [] {
        assert ([parts[0]] + RemoveEmpty(parts[1..]))[1..] == RemoveEmpty(parts[1..]);
      }
    }
  }

  /** The tokens of a line are non-empty, free of '=', and together they are the
      line with every '=' removed: a token never loses or gains a character. */
  lemma TokensCoverLine(line: string)
    ensures Concat(Tokens(line)) == WithoutSeparators(line)
  {
    ConcatRemoveEmpty(SplitAll(line, Separator));
    ConcatSplit(line);
  }

  // ---- Load ----

  function MapGet(m: map<string, string>, k: string): Option<string> {
    if k in m then Some(m[k]) else None
  }

  /** The value the last line that parses with key `k` assigns, if any line does. */
  function LastAssigned(lines: seq<string>, k: string): Option<string> {
    if |lines| == 0 then None
    else
      var entry := ParseLine(lines[|lines| - 1]);
      if entry.Some? && entry.value.0 == k then Some(entry.value.1)
      else LastAssigned(lines[..|lines| - 1], k)
  }

  /** What a key holds after loading `lines` over `env`: the last assignment in
      the file, else the earlier value. */
  function Loaded(env: map<string, string>, lines: seq<string>, k: string): Option<string> {
    match LastAssigned(lines, k)
    case Some(v) => Some(v)
    case None => MapGet(env, k)
  }

  /** One more line overrides the key it assigns and leaves every other key as it was. */
  lemma LoadedStep(env: map<string, string>, lines: seq<string>, i: nat, k: string)
    requires i < |lines|
    ensures var entry := ParseLine(lines[i]);
      Loaded(env, lines[..i + 1], k) ==
        if entry.Some? && entry.value.0 == k then Some(entry.value.1) else Loaded(env, lines[..i], k)
  {
    assert lines[..i + 1][..i] == lines[..i];
    assert lines[..i + 1][i] == lines[i];
  }

  /** `Load`: nothing changes when the file is absent; otherwise each line that
      parses stores its value under its key, later lines overwriting earlier ones. */
  method Load(env: map<string, string>, file: Option<seq<string>>) returns (loaded: map<string, string>)
    ensures file.None? ==> loaded == env
    ensures file.Some? ==> forall k :: MapGet(loaded, k) == Loaded(env, file.value, k)
  {
    loaded := env;
    if file.None? {
      return;
    }
    var lines := file.value;
    var i := 0;
    while i < |lines|
      invariant 0 <= i <= |lines|
      invariant forall k :: MapGet(loaded, k) == Loaded(env, lines[..i], k)
    {
      var entry := ParseLine(lines[i]);
      var previous := loaded;
      if entry.Some? {
        loaded := loaded[entry.value.0 := entry.value.1];
      }
      forall k ensures MapGet(loaded, k) == Loaded(env, lines[..i + 1], k) {
        assert MapGet(previous, k) == Loaded(env, lines[..i], k);
        LoadedStep(env, lines, i, k);
      }
      i := i + 1;
    }
    assert lines[..i] == lines;
  }

  /** A later line with the same key wins over every earlier one. */
  lemma {:induction false} LastLineWins(before: seq<string>, line: string, after: seq<string>, k: string, v: string)
    requires ParseLine(line) == Some((k, v))
    requires forall j :: 0 <= j < |after| ==> ParseLine(after[j]).None? || ParseLine(after[j]).value.0 != k
    ensures LastAssigned(before + [line] + after, k) == Some(v)
  {
    var lines := before + [line] + after;
    if |after| == 0 {
      assert lines[|lines| - 1] == line;
    } else {
      var shorter := after[..|after| - 1];
      assert lines[..|lines| - 1] == before + [line] + shorter;
      assert lines[|lines| - 1] == after[|after| - 1];
      LastLineWins(before, line, shorter, k, v);
    }
  }

  // ---- the indexer ----

  /** The indexer `this[key]`: the loaded value if there is one, else the
      environment variable, which is then cached; "" (never null) when the
      variable is missing too. Returns the value and the map afterwards. */
  function Lookup(loaded: map<string, string>, environment: map<string, string>, key: string)
    : (r: (string, map<string, string>))
    ensures key in loaded ==> r.0 == loaded[key]
    ensures key !in loaded && key in environment ==> r.0 == environment[key]
    ensures key !in loaded && key !in environment ==> r.0 == ""
    ensures key in r.1 <==> key in loaded || key in environment
    ensures key in r.1 ==> r.1[key] == r.0
    ensures forall k :: k != key ==> MapGet(r.1, k) == MapGet(loaded, k)
  {
    if key in loaded then (loaded[key], loaded)
    else
      var value := MapGet(environment, key);
      var cached := if value.Some? then loaded[key := value.value] else loaded;
      (value.GetOr(""), cached)
  }

  /** Once a lookup has found a value, later lookups return it whatever the
      environment holds by then. */
  lemma FoundValueSticks(loaded: map<string, string>, env1: map<string, string>, env2: map<string, string>, key: string)
    requires key in loaded || key in env1
    ensures var (first, after) := Lookup(loaded, env1, key);
      Lookup(after, env2, key) == (first, after)
  {
  }

  /** A key found nowhere is not cached: the next lookup consults the environment again. */
  lemma MissIsNotCached(loaded: map<string, string>, env1: map<string, string>, env2: map<string, string>, key: string)
    requires key !in loaded && key !in env1
    ensures var (first, after) := Lookup(loaded, env1, key);
      first == "" && Lookup(after, env2, key) == Lookup(loaded, env2, key)
  {
  }
}
