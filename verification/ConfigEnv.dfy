/** The config.env printer (cmd/_dbxroot/cmd/pup-write-config.go) and the reader of
    systemd's EnvironmentFile= that has to undo it. */
module ConfigEnv {
  import opened Ordering

  // ------------------------------------------------------------------
  // The printer
  // ------------------------------------------------------------------

  const SPECIAL := " \t\n\"'\\$`"

  predicate NeedsQuotes(v: string) {
    exists c <- v :: c in SPECIAL
  }

  /** White space other than a carriage return, quotes, backslash, dollar and backquote
      call for quotes. */
  lemma QuotedCharacters(v: string)
    ensures NeedsQuotes(v) <==> exists i :: 0 <= i < |v| && CallsForQuotes(v[i] as int)
  {
    forall c: char
      ensures c in SPECIAL <==> CallsForQuotes(c as int)
    {
      SpecialByCode(c);
    }
    if NeedsQuotes(v) {
      var c :| c in v && c in SPECIAL;
      var i :| 0 <= i < |v| && v[i] == c;
      assert CallsForQuotes(v[i] as int);
    }
    if i :| 0 <= i < |v| && CallsForQuotes(v[i] as int) {
      assert v[i] in v && v[i] in SPECIAL;
    }
  }

  predicate CallsForQuotes(code: int) {
    code == 9 || code == 10 || code == 32 || code == 34 || code == 36 || code == 39 || code == 92 || code == 96
  }

  lemma SpecialByCode(c: char)
    ensures c in SPECIAL <==> CallsForQuotes(c as int)
  {
    assert forall i :: 0 <= i < |SPECIAL| ==> CallsForQuotes(SPECIAL[i] as int);
    if CallsForQuotes(c as int) {
      assert c == SPECIAL[0] || c == SPECIAL[1] || c == SPECIAL[2] || c == SPECIAL[3] || c == SPECIAL[4]
             || c == SPECIAL[5] || c == SPECIAL[6] || c == SPECIAL[7];
    }
  }

  function ReplaceAll(s: string, c: char, with: string): string {
    if s == "" then "" else (if s[0] == c then with else [s[0]]) + ReplaceAll(s[1..], c, with)
  }

  /** Every backslash and every double quote gets one backslash. */
  function Escaped(s: string): string {
    if s == "" then "" else (if s[0] in "\\\"" then "\\" + [s[0]] else [s[0]]) + Escaped(s[1..])
  }

  /** The two replacements, in this order, do not interfere. */
  lemma {:induction false} ReplacingTwiceEscapes(s: string)
    ensures ReplaceAll(ReplaceAll(s, '\\', "\\\\"), '\"', "\\\"") == Escaped(s)
  {
    if s != "" {
      ReplacingTwiceEscapes(s[1..]);
      var first := if s[0] == '\\' then "\\\\" else [s[0]];
      ReplaceAllConcat(first, ReplaceAll(s[1..], '\\', "\\\\"), '\"', "\\\"");
      assert "\\\\"[1..] == "\\" && "\\"[1..] == "" && [s[0]][1..] == "";
      assert ReplaceAll("\\", '\"', "\\\"") == "\\";
      assert ReplaceAll("\\\\", '\"', "\\\"") == "\\\\";
      assert ReplaceAll([s[0]], '\"', "\\\"") == if s[0] == '\"' then "\\\"" else [s[0]];
    }
  }

  lemma {:induction false} ReplaceAllConcat(a: string, b: string, c: char, with: string)
    ensures ReplaceAll(a + b, c, with) == ReplaceAll(a, c, with) + ReplaceAll(b, c, with)
    decreases |a|
  {
    if a == "" {
      assert a + b == b;
    } else {
      assert (a + b)[1..] == a[1..] + b;
      ReplaceAllConcat(a[1..], b, c, with);
    }
  }

  function Printed(v: string): string {
    if NeedsQuotes(v) then "\"" + Escaped(v) + "\"" else v
  }

  function Line(k: string, v: string): string {
    k + "=" + Printed(v)
  }

  /** One line for each key, each with its newline. */
  function FileText(keys: seq<string>, config: map<string, string>): string
    requires forall k <- keys :: k in config
  {
    if keys == [] then "" else Line(keys[0], config[keys[0]]) + "\n" + FileText(keys[1..], config)
  }

  function CompareText(a: string, b: string): int {
    Lex(a, b, CompareChar)
  }

  /** The keys, each once, in order. */
  ghost predicate IsKeyOrder(keys: seq<string>, config: map<string, string>) {
    Sorted(keys, CompareText) && multiset(keys) == multiset(config.Keys)
  }

  lemma KeyOrderHolds(keys: seq<string>, config: map<string, string>)
    requires IsKeyOrder(keys, config)
    ensures forall k :: k in keys <==> k in config
    ensures Distinct(keys)
  {
    assert forall k :: k in keys <==> k in multiset(keys);
    DistinctCounts(keys);
  }

  /** The keys ascend: of two keys the earlier one is a prefix of the other or has the
      smaller character where they first differ. */
  lemma KeysAscend(keys: seq<string>, config: map<string, string>)
    requires IsKeyOrder(keys, config)
    ensures forall i, j :: 0 <= i < j < |keys| ==>
              ComesBefore(keys[i], keys[j], (c: char, d: char) => c as int < d as int)
  {
    KeyOrderHolds(keys, config);
    TextIsOrder();
    forall i, j | 0 <= i < j < |keys|
      ensures ComesBefore(keys[i], keys[j], (c: char, d: char) => c as int < d as int)
    {
      assert CompareText(keys[i], keys[j]) <= 0 && keys[i] != keys[j];
      assert IsOrder(CompareChar);
      LexIsFirstDifference(keys[i], keys[j], CompareChar, (c: char, d: char) => c as int < d as int);
    }
  }

  lemma TextIsOrder()
    ensures IsOrder(CompareText)
  {
    assert IsOrder(CompareChar);
    LexIsOrder(CompareChar);
    var lex := (a, b) => Lex(a, b, CompareChar);
    assert forall a, b :: CompareText(a, b) == lex(a, b);
  }

  /** The text depends on the map alone. */
  lemma FileIsDetermined(a: seq<string>, b: seq<string>, config: map<string, string>)
    requires IsKeyOrder(a, config) && IsKeyOrder(b, config)
    ensures a == b
  {
    TextIsOrder();
    SortedIsUnique(a, b, CompareText);
  }

  ghost predicate IsFileOf(content: string, config: map<string, string>) {
    exists keys ::
      && IsKeyOrder(keys, config)
      && (forall k <- keys :: k in config)
      && content == FileText(keys, config)
  }

  method WriteConfig(config: map<string, string>) returns (content: string)
    ensures IsFileOf(content, config)
  {
    var keys := SortedKeys(config);
    KeyOrderHolds(keys, config);
    var lines := PrintLines(keys, config);
    content := Join(lines, "\n");
    if |lines| > 0 {
      content := content + "\n";
    }
    JoinEndsLines(lines, keys, config);
  }

  method SortedKeys(config: map<string, string>) returns (keys: seq<string>)
    ensures IsKeyOrder(keys, config)
  {
    keys := [];
    var rest := config.Keys;
    while rest != {}
      invariant rest <= config.Keys
      invariant multiset(keys) == multiset(config.Keys - rest)
      decreases |rest|
    {
      var k :| k in rest;
      assert config.Keys - (rest - {k}) == config.Keys - rest + {k};
      keys := keys + [k];
      rest := rest - {k};
    }
    assert config.Keys - rest == config.Keys;
    TextIsOrder();
    keys := Sort(keys, CompareText);
  }

  method PrintLines(keys: seq<string>, config: map<string, string>) returns (lines: seq<string>)
    requires forall k <- keys :: k in config
    ensures |lines| == |keys|
    ensures forall j :: 0 <= j < |keys| ==> lines[j] == Line(keys[j], config[keys[j]])
  {
    lines := [];
    for i := 0 to |keys|
      invariant |lines| == i
      invariant forall j :: 0 <= j < i ==> lines[j] == Line(keys[j], config[keys[j]])
    {
      var v := config[keys[i]];
      if NeedsQuotes(v) {
        ReplacingTwiceEscapes(v);
        v := ReplaceAll(v, '\\', "\\\\");
        v := ReplaceAll(v, '\"', "\\\"");
        v := "\"" + v + "\"";
      }
      lines := lines + [keys[i] + "=" + v];
    }
  }

  function Join(lines: seq<string>, separator: string): string {
    if lines == [] then "" else if |lines| == 1 then lines[0] else lines[0] + separator + Join(lines[1..], separator)
  }

  lemma {:induction false} JoinEndsLines(lines: seq<string>, keys: seq<string>, config: map<string, string>)
    requires |lines| == |keys| && forall k <- keys :: k in config
    requires forall j :: 0 <= j < |keys| ==> lines[j] == Line(keys[j], config[keys[j]])
    ensures Join(lines, "\n") + (if |lines| > 0 then "\n" else "") == FileText(keys, config)
  {
    if |lines| > 1 {
      JoinEndsLines(lines[1..], keys[1..], config);
    } else if |lines| == 1 {
      assert keys[1..] == [];
    }
  }

  // ------------------------------------------------------------------
  // The reader
  // ------------------------------------------------------------------

  datatype Mode =
    | PreKey | Key | PreValue | Value | ValueEscape | SingleQuote | DoubleQuote | DoubleQuoteEscape
    | Comment | CommentEscape

  /** `keyEnd` and `valueEnd` are where trailing white space began. */
  datatype Reader = Reader(mode: Mode, key: string, keyEnd: int, value: string, valueEnd: int,
                           out: seq<(string, string)>)

  const NOWHERE := -1

  predicate IsNewline(c: char) { c in "\n\r" }

  predicate IsBlank(c: char) { c in " \t\n\r" }

  function Chomp(s: string, end: int): string {
    if 0 <= end <= |s| then s[..end] else s
  }

  /** Hand over the assignment read so far. */
  function Push(r: Reader, value: string): Reader {
    r.(mode := PreKey, key := "", value := "", out := r.out + [(Chomp(r.key, r.keyEnd), value)])
  }

  /** Where trailing white space begins after one more character. */
  function EndAfter(s: string, end: int, c: char): int {
    if !IsBlank(c) then NOWHERE else if end == NOWHERE then |s| else end
  }

  function Step(r: Reader, c: char): Reader {
    match r.mode
    case PreKey =>
      if c in "#;" then r.(mode := Comment)
      else if IsBlank(c) then r
      else r.(mode := Key, keyEnd := NOWHERE, key := r.key + [c])
    case Key =>
      if IsNewline(c) then r.(mode := PreKey, key := "")
      else if c == '=' then r.(mode := PreValue, valueEnd := NOWHERE)
      else r.(keyEnd := EndAfter(r.key, r.keyEnd, c), key := r.key + [c])
    case PreValue =>
      if IsNewline(c) then Push(r, r.value)
      else if c == '\'' then r.(mode := SingleQuote)
      else if c == '\"' then r.(mode := DoubleQuote)
      else if c == '\\' then r.(mode := ValueEscape)
      else if IsBlank(c) then r
      else r.(mode := Value, value := r.value + [c])
    case Value =>
      if IsNewline(c) then Push(r, Chomp(r.value, r.valueEnd))
      else if c == '\\' then r.(mode := ValueEscape, valueEnd := NOWHERE)
      else r.(valueEnd := EndAfter(r.value, r.valueEnd, c), value := r.value + [c])
    case ValueEscape => r.(mode := Value, value := r.value + if IsNewline(c) then "" else [c])
    case SingleQuote => if c == '\'' then r.(mode := PreValue) else r.(value := r.value + [c])
    case DoubleQuote =>
      if c == '\"' then r.(mode := PreValue)
      else if c == '\\' then r.(mode := DoubleQuoteEscape)
      else r.(value := r.value + [c])
    case DoubleQuoteEscape =>
      r.(mode := DoubleQuote,
         value := r.value + if c in "\"\\`$" then [c] else if c == '\n' then "" else "\\" + [c])
    case Comment => if c == '\\' then r.(mode := CommentEscape) else if IsNewline(c) then r.(mode := PreKey) else r
    case CommentEscape => r.(mode := Comment)
  }

  function Steps(r: Reader, text: string): Reader
    decreases |text|
  {
    if text == "" then r else Steps(Step(r, text[0]), text[1..])
  }

  /** At the end of the file an assignment begun is handed over too. */
  function Finish(r: Reader): Reader {
    if r.mode.PreKey? || r.mode.Key? || r.mode.Comment? || r.mode.CommentEscape? then r
    else Push(r, if r.mode.Value? then Chomp(r.value, r.valueEnd) else r.value)
  }

  const START := Reader(PreKey, "", NOWHERE, "", NOWHERE, [])

  /** Later assignments replace earlier ones. */
  function Assigned(out: seq<(string, string)>): map<string, string> {
    if out == [] then map[]
    else
      var n := |out| - 1;
      Assigned(out[..n])[out[n].0 := out[n].1]
  }

  function Read(text: string): map<string, string> {
    Assigned(Finish(Steps(START, text)).out)
  }

  lemma {:induction false} StepsConcat(r: Reader, a: string, b: string)
    ensures Steps(r, a + b) == Steps(Steps(r, a), b)
    decreases |a|
  {
    if a == "" {
      assert a + b == b;
    } else {
      assert (a + b)[1..] == a[1..] + b && (a + b)[0] == a[0];
      StepsConcat(Step(r, a[0]), a[1..], b);
    }
  }

  lemma OneStep(r: Reader, c: char)
    ensures Steps(r, [c]) == Step(r, c)
  {
    assert [c][1..] == "";
    assert Steps(Step(r, c), "") == Step(r, c);
  }

  // ------------------------------------------------------------------
  // Reading back one line
  // ------------------------------------------------------------------

  predicate WellFormedKey(k: string) {
    && k != "" && k[0] !in "#;"
    && forall c <- k :: !IsBlank(c) && c != '='
  }

  /** Between two lines. */
  predicate AtLineStart(r: Reader) {
    r.mode.PreKey? && r.key == "" && r.value == ""
  }

  /** The values that come back. */
  predicate Survives(v: string) {
    NeedsQuotes(v) || '\r' !in v
  }

  lemma {:induction false} ReadKey(r: Reader, k: string)
    requires r.mode.Key? && r.keyEnd == NOWHERE
    requires forall c <- k :: !IsBlank(c) && c != '='
    ensures Steps(r, k) == r.(key := r.key + k)
    decreases |k|
  {
    if k == "" {
      assert r.key + k == r.key;
    } else {
      assert k[0] in k;
      ReadKey(Step(r, k[0]), k[1..]);
      assert r.key + [k[0]] + k[1..] == r.key + k;
    }
  }

  /** The key and the equals sign. */
  lemma ReadAssignment(r: Reader, k: string)
    requires AtLineStart(r) && WellFormedKey(k)
    ensures Steps(r, k + "=") == Reader(PreValue, k, NOWHERE, "", NOWHERE, r.out)
  {
    var r1 := Step(r, k[0]);
    assert k[0] in k;
    assert r1 == r.(mode := Key, keyEnd := NOWHERE, key := [k[0]]);
    ReadKey(r1, k[1..]);
    assert [k[0]] + k[1..] == k;
    assert Steps(r, k) == Steps(r1, k[1..]);
    StepsConcat(r, k, "=");
    OneStep(Steps(r, k), '=');
  }

  lemma {:induction false} ReadQuoted(r: Reader, s: string)
    requires r.mode.DoubleQuote?
    ensures Steps(r, Escaped(s)) == r.(value := r.value + s)
    decreases |s|
  {
    if s == "" {
      assert r.value + s == r.value;
    } else {
      var first := if s[0] in "\\\"" then "\\" + [s[0]] else [s[0]];
      ReadQuotedChar(r, s[0]);
      StepsConcat(r, first, Escaped(s[1..]));
      ReadQuoted(r.(value := r.value + [s[0]]), s[1..]);
      assert r.value + [s[0]] + s[1..] == r.value + s;
    }
  }

  lemma ReadQuotedChar(r: Reader, c: char)
    requires r.mode.DoubleQuote?
    ensures Steps(r, if c in "\\\"" then "\\" + [c] else [c]) == r.(value := r.value + [c])
  {
    if c in "\\\"" {
      StepsConcat(r, "\\", [c]);
      OneStep(r, '\\');
      OneStep(Step(r, '\\'), c);
    } else {
      OneStep(r, c);
    }
  }

  lemma {:induction false} ReadPlain(r: Reader, v: string)
    requires r.mode.Value? && r.valueEnd == NOWHERE && !NeedsQuotes(v) && '\r' !in v
    ensures Steps(r, v) == r.(value := r.value + v)
    decreases |v|
  {
    if v == "" {
      assert r.value + v == r.value;
    } else {
      assert v[0] in v && v[0] !in SPECIAL;
      PlainChar(v[0]);
      assert forall c <- v[1..] :: c in v;
      ReadPlain(Step(r, v[0]), v[1..]);
      assert r.value + [v[0]] + v[1..] == r.value + v;
    }
  }

  lemma PlainChar(c: char)
    requires c !in SPECIAL && c != '\r'
    ensures !IsBlank(c) && c != '\'' && c != '\"' && c != '\\'
  {
    assert SPECIAL[0] == ' ' && SPECIAL[1] == '\t' && SPECIAL[2] == '\n' && SPECIAL[3] == '\"' && SPECIAL[4] == '\'' &&
           SPECIAL[5] == '\\';
  }

  /** A surviving value comes back, and the reader is between two lines again. */
  lemma ReadValue(r: Reader, v: string)
    requires r.mode.PreValue? && r.keyEnd == NOWHERE && r.value == "" && r.valueEnd == NOWHERE && Survives(v)
    ensures AtLineStart(Steps(r, Printed(v) + "\n"))
    ensures Steps(r, Printed(v) + "\n").out == r.out + [(r.key, v)]
  {
    StepsConcat(r, Printed(v), "\n");
    OneStep(Steps(r, Printed(v)), '\n');
    if NeedsQuotes(v) {
      var r1 := r.(mode := DoubleQuote);
      StepsConcat(r, "\"", Escaped(v) + "\"");
      assert Printed(v) == "\"" + (Escaped(v) + "\"");
      OneStep(r, '\"');
      StepsConcat(r1, Escaped(v), "\"");
      ReadQuoted(r1, v);
      OneStep(r1.(value := v), '\"');
      assert Steps(r, Printed(v)) == r.(value := v);
    } else if v != "" {
      assert v[0] in v && v[0] !in SPECIAL;
      PlainChar(v[0]);
      assert forall c <- v[1..] :: c in v;
      assert r.value + [v[0]] == [v[0]];
      ReadPlain(Step(r, v[0]), v[1..]);
      assert [v[0]] + v[1..] == v;
      assert Steps(r, v) == r.(mode := Value, value := v);
    }
  }

  lemma ReadLine(r: Reader, k: string, v: string)
    requires AtLineStart(r) && WellFormedKey(k) && Survives(v)
    ensures AtLineStart(Steps(r, Line(k, v) + "\n"))
    ensures Steps(r, Line(k, v) + "\n").out == r.out + [(k, v)]
  {
    ReadAssignment(r, k);
    assert Line(k, v) + "\n" == (k + "=") + (Printed(v) + "\n");
    StepsConcat(r, k + "=", Printed(v) + "\n");
    ReadValue(Steps(r, k + "="), v);
  }

  // ------------------------------------------------------------------
  // A value that does not survive
  // ------------------------------------------------------------------

  /** No quote or backslash has been seen since the last line, and nothing read
      holds a carriage return. */
  ghost predicate Plain(r: Reader) {
    && (r.mode.PreKey? || r.mode.Key? || r.mode.PreValue? || r.mode.Value? || r.mode.Comment?)
    && (r.mode.PreKey? || r.mode.Comment? ==> r.key == "")
    && (r.mode.PreValue? || r.mode.Value? || r.value == "")
    && '\r' !in r.value
  }

  /** Assignments added, none with a carriage return in its value. */
  ghost predicate AddsPlain(before: seq<(string, string)>, after: seq<(string, string)>) {
    |before| <= |after| && after[..|before|] == before &&
    forall i :: |before| <= i < |after| ==> '\r' !in after[i].1
  }

  lemma PlainStep(r: Reader, c: char)
    requires Plain(r)
    requires r.mode.PreValue? || r.mode.Value? || r.mode.Comment? ==> c != '\'' && c != '\"' && c != '\\'
    ensures Plain(Step(r, c)) && AddsPlain(r.out, Step(r, c).out)
    ensures c == '\n' ==> AtLineStart(Step(r, c))
  {
    assert forall x <- Chomp(r.value, r.valueEnd) :: x in r.value;
  }

  lemma {:induction false} PlainSteps(r: Reader, text: string)
    requires Plain(r) && '\'' !in text && '\"' !in text && '\\' !in text
    ensures Plain(Steps(r, text)) && AddsPlain(r.out, Steps(r, text).out)
    decreases |text|
  {
    if text != "" {
      assert text[0] in text;
      assert forall c <- text[1..] :: c in text;
      PlainStep(r, text[0]);
      PlainSteps(Step(r, text[0]), text[1..]);
      AddsMore(r.out, Step(r, text[0]).out, Steps(r, text).out);
    }
  }

  lemma AddsMore(a: seq<(string, string)>, b: seq<(string, string)>, c: seq<(string, string)>)
    requires AddsPlain(a, b) && AddsPlain(b, c)
    ensures AddsPlain(a, c)
  {
    assert a == c[..|b|][..|a|];
    forall i | |a| <= i < |b|
      ensures c[i] == b[i]
    {
      assert c[..|b|][i] == b[i];
    }
  }

  /** An unquoted value with a carriage return is cut there; whatever the rest of
      the line is taken for, the line assigns no value with a carriage return, and
      it does not reach into the next. */
  lemma ReadBrokenLine(r: Reader, k: string, v: string)
    requires AtLineStart(r) && WellFormedKey(k) && !NeedsQuotes(v)
    ensures AtLineStart(Steps(r, Line(k, v) + "\n"))
    ensures AddsPlain(r.out, Steps(r, Line(k, v) + "\n").out)
  {
    ReadAssignment(r, k);
    var r1 := Steps(r, k + "=");
    assert Line(k, v) + "\n" == (k + "=") + (v + "\n");
    StepsConcat(r, k + "=", v + "\n");
    StepsConcat(r1, v, "\n");
    OneStep(Steps(r1, v), '\n');
    Unspecial(v);
    PlainSteps(r1, v);
    PlainStep(Steps(r1, v), '\n');
    AddsMore(r1.out, Steps(r1, v).out, Step(Steps(r1, v), '\n').out);
  }

  lemma Unspecial(v: string)
    requires !NeedsQuotes(v)
    ensures '\'' !in v && '\"' !in v && '\\' !in v
  {
    assert SPECIAL[3] == '\"' && SPECIAL[4] == '\'' && SPECIAL[5] == '\\';
  }

  // ------------------------------------------------------------------
  // The whole file
  // ------------------------------------------------------------------

  /** The pairs in `out` from `from` on are what the lines of `keys` give: the
      surviving ones exactly, the others without a carriage return. */
  ghost predicate Yields(out: seq<(string, string)>, keys: seq<string>, config: map<string, string>)
    requires forall k <- keys :: k in config
  {
    && (forall k <- keys :: Survives(config[k]) ==> (k, config[k]) in out)
    && (forall p <- out :: '\r' !in p.1 || (p.0 in keys && NeedsQuotes(p.1) && p.1 == config[p.0]))
    && ((forall k <- keys :: Survives(config[k])) ==> forall p <- out :: p.0 in keys && p.1 == config[p.0])
  }

  lemma {:induction false} ReadFile(r: Reader, keys: seq<string>, config: map<string, string>)
    returns (more: seq<(string, string)>)
    requires AtLineStart(r)
    requires forall k <- keys :: k in config && WellFormedKey(k)
    ensures AtLineStart(Steps(r, FileText(keys, config)))
    ensures Steps(r, FileText(keys, config)).out == r.out + more && Yields(more, keys, config)
    decreases |keys|
  {
    if keys == [] {
      more := [];
    } else {
      var k, rest := keys[0], keys[1..];
      var v := config[k];
      var r1, first := ReadAnyLine(r, k, v);
      StepsConcat(r, Line(k, v) + "\n", FileText(rest, config));
      var others := ReadFile(r1, rest, config);
      YieldsNext(first, others, keys, config);
      Regroup(r.out, first, others);
      more := first + others;
    }
  }

  lemma Regroup<T>(a: seq<T>, b: seq<T>, c: seq<T>)
    ensures (a + b) + c == a + (b + c)
  {}

  lemma ReadAnyLine(r: Reader, k: string, v: string) returns (r1: Reader, added: seq<(string, string)>)
    requires AtLineStart(r) && WellFormedKey(k)
    ensures r1 == Steps(r, Line(k, v) + "\n") && AtLineStart(r1) && r1.out == r.out + added
    ensures if Survives(v) then added == [(k, v)] else forall p <- added :: '\r' !in p.1
  {
    r1 := Steps(r, Line(k, v) + "\n");
    var after := r1.out;
    if Survives(v) {
      added := [(k, v)];
      ReadLine(r, k, v);
    } else {
      ReadBrokenLine(r, k, v);
      added := after[|r.out|..];
      assert after == after[..|r.out|] + added;
    }
  }

  lemma YieldsNext(first: seq<(string, string)>, more: seq<(string, string)>, keys: seq<string>,
                   config: map<string, string>)
    requires keys != [] && (forall k <- keys :: k in config) && Yields(more, keys[1..], config)
    requires var v := config[keys[0]];
             if Survives(v) then first == [(keys[0], v)] else forall p <- first :: '\r' !in p.1
    ensures Yields(first + more, keys, config)
  {
    assert keys == [keys[0]] + keys[1..];
    assert forall p :: p in first + more <==> p in first || p in more;
  }

  lemma {:induction false} AssignedIsListed(out: seq<(string, string)>, k: string)
    ensures k in Assigned(out) ==> (k, Assigned(out)[k]) in out
    ensures (exists v :: (k, v) in out) ==> k in Assigned(out)
  {
    if out != [] {
      var n := |out| - 1;
      AssignedIsListed(out[..n], k);
      assert out == out[..n] + [out[n]];
      assert out[n] == (out[n].0, out[n].1);
    }
  }

  lemma AllAreListed(out: seq<(string, string)>)
    ensures forall k :: k in Assigned(out) ==> (k, Assigned(out)[k]) in out
    ensures forall p <- out :: p.0 in Assigned(out)
  {
    forall k | k in Assigned(out)
      ensures (k, Assigned(out)[k]) in out
    {
      AssignedIsListed(out, k);
    }
    forall p | p in out
      ensures p.0 in Assigned(out)
    {
      AssignedIsListed(out, p.0);
      assert p == (p.0, p.1);
    }
  }

  lemma SurvivorsComeBack(out: seq<(string, string)>, keys: seq<string>, config: map<string, string>)
    requires (forall k :: k in keys <==> k in config) && Yields(out, keys, config)
    requires forall k <- config :: Survives(config[k])
    ensures Assigned(out) == config
  {
    AllAreListed(out);
    forall k | k in config
      ensures k in Assigned(out)
    {
      assert (k, config[k]) in out;
    }
  }

  lemma OthersDoNot(out: seq<(string, string)>, keys: seq<string>, config: map<string, string>, k: string)
    requires (forall k :: k in keys <==> k in config) && Yields(out, keys, config)
    requires k in config && !Survives(config[k])
    ensures Assigned(out) != config
  {
    AllAreListed(out);
    assert (k, config[k]) !in out;
  }

  /** Reading the file gives back the map exactly when every value survives: it
      needs quotes, or it has no carriage return. */
  lemma RoundTrip(config: map<string, string>, content: string)
    requires IsFileOf(content, config)
    requires forall k <- config :: WellFormedKey(k)
    ensures Read(content) == config <==> forall k <- config :: Survives(config[k])
  {
    var keys :| IsKeyOrder(keys, config) && (forall k <- keys :: k in config) && content == FileText(keys, config);
    KeyOrderHolds(keys, config);
    var out := ReadBack(keys, config);
    if k :| k in config && !Survives(config[k]) {
      OthersDoNot(out, keys, config, k);
    } else {
      SurvivorsComeBack(out, keys, config);
    }
  }

  /** So every value that holds a carriage return, and nothing that calls for quotes, is
      lost, whatever its key. */
  lemma BareReturnIsLost(k: string, v: string, content: string)
    requires WellFormedKey(k) && IsFileOf(content, map[k := v])
    requires '\r' in v && forall i :: 0 <= i < |v| ==> !CallsForQuotes(v[i] as int)
    ensures Read(content) != map[k := v]
  {
    QuotedCharacters(v);
    RoundTrip(map[k := v], content);
    assert map[k := v][k] == v;
  }

  lemma ReadBack(keys: seq<string>, config: map<string, string>) returns (out: seq<(string, string)>)
    requires forall k <- keys :: k in config && WellFormedKey(k)
    ensures Read(FileText(keys, config)) == Assigned(out) && Yields(out, keys, config)
  {
    out := ReadFile(START, keys, config);
    assert START.out + out == out;
  }
}
