/** The exposition-line splitter and the sample map built with it: splitting undoes printing,
    and equal map keys mean equal series. */
module SplitSeries {
  import opened Sorting
  import opened Wrappers

  /** A line's metric name, its label pairs and the text after the series, or why it has none. */
  datatype Outcome = Split(name: string, labels: seq<string>, rest: string) | NoValue | Unterminated

  predicate IsSpace(c: char) {
    var n := c as int;
    9 <= n <= 13 || n == 32 || n == 0x85 || n == 0xA0 || n == 0x1680 || 0x2000 <= n <= 0x200A ||
    n == 0x2028 || n == 0x2029 || n == 0x202F || n == 0x205F || n == 0x3000
  }

  function TrimStart(s: string): string {
    if s != [] && IsSpace(s[0]) then TrimStart(s[1..]) else s
  }

  function TrimEnd(s: string): string {
    if s != [] && IsSpace(s[|s| - 1]) then TrimEnd(s[..|s| - 1]) else s
  }

  function Trim(s: string): string {
    TrimEnd(TrimStart(s))
  }

  // ----- The splitter -----

  predicate EndsName(c: char) {
    c == '{' || IsSpace(c)
  }

  function NameEnd(line: string): (k: nat)
    ensures k <= |line|
    ensures forall i :: 0 <= i < k ==> !EndsName(line[i])
    ensures k < |line| ==> EndsName(line[k])
  {
    if line == [] || EndsName(line[0]) then 0 else 1 + NameEnd(line[1..])
  }

  datatype Mode = Plain | Quoted | Escaped

  function Next(mode: Mode, c: char): Mode {
    match mode
    case Escaped => Quoted
    case Quoted => if c == '\\' then Escaped else if c == '"' then Plain else Quoted
    case Plain => if c == '"' then Quoted else Plain
  }

  /** A comma or closing brace outside quotes ends a pair. */
  predicate Cuts(mode: Mode, c: char) {
    mode == Plain && (c == ',' || c == '}')
  }

  function WithPair(labels: seq<string>, pair: string): seq<string> {
    if Trim(pair) == "" then labels else labels + [Trim(pair)]
  }

  datatype Labels = Labels(labels: seq<string>, rest: string) | Open

  function Scan(mode: Mode, pair: string, labels: seq<string>, s: string): Labels
    decreases |s|
  {
    if s == [] then Open
    else if !Cuts(mode, s[0]) then Scan(Next(mode, s[0]), pair + [s[0]], labels, s[1..])
    else if s[0] == '}' then Labels(WithPair(labels, pair), s[1..])
    else Scan(Plain, [], WithPair(labels, pair), s[1..])
  }

  function SplitOf(line: string): Outcome {
    var end := NameEnd(line);
    if end == |line| then NoValue
    else if line[end] != '{' then Split(line[..end], [], line[end..])
    else
      match Scan(Plain, [], [], line[end + 1..])
      case Open => Unterminated
      case Labels(labels, rest) => Split(line[..end], labels, rest)
  }

  method SplitLine(line: string) returns (outcome: Outcome)
    ensures outcome == SplitOf(line)
  {
    hide Trim, NameEnd, EndsName, Scan;
    var end := NameEnd(line);
    if end == |line| {
      return NoValue;
    }
    var name := line[..end];
    if line[end] != '{' {
      return Split(name, [], line[end..]);
    }
    var labels: seq<string> := [];
    var start, quoted, escaped := end + 1, false, false;
    assert line[start..end + 1] == [];
    for i := end + 1 to |line|
      invariant end < start <= i && (escaped ==> quoted)
      invariant Scan(Plain, [], [], line[end + 1..]) ==
                Scan(if escaped then Escaped else if quoted then Quoted else Plain, line[start..i], labels, line[i..])
    {
      var c := line[i];
      ScanNext(if escaped then Escaped else if quoted then Quoted else Plain, line, start, i, labels);
      if escaped {
        escaped := false;
      } else if quoted {
        if c == '\\' {
          escaped := true;
        } else if c == '"' {
          quoted := false;
        }
      } else if c == '"' {
        quoted := true;
      } else if c == ',' || c == '}' {
        var pair := Trim(line[start..i]);
        if pair != "" {
          labels := labels + [pair];
        }
        if c == '}' {
          return Split(name, labels, line[i + 1..]);
        }
        start := i + 1;
        assert line[start..i + 1] == [];
      }
    }
    assert line[|line|..] == "";
    ScanEnds(if escaped then Escaped else if quoted then Quoted else Plain, line[start..|line|], labels);
    outcome := Unterminated;
  }

  lemma ScanNext(mode: Mode, line: string, start: nat, i: nat, labels: seq<string>)
    requires start <= i < |line|
    ensures Scan(mode, line[start..i], labels, line[i..]) ==
            if !Cuts(mode, line[i]) then Scan(Next(mode, line[i]), line[start..i + 1], labels, line[i + 1..])
            else if line[i] == '}' then Labels(WithPair(labels, line[start..i]), line[i + 1..])
            else Scan(Plain, [], WithPair(labels, line[start..i]), line[i + 1..])
  {
    assert line[i..][1..] == line[i + 1..] && line[start..i + 1] == line[start..i] + [line[i]];
  }

  lemma ScanEnds(mode: Mode, pair: string, labels: seq<string>)
    ensures Scan(mode, pair, labels, "") == Open
  {
  }

  // ----- Splitting undoes printing -----

  function Join(labels: seq<string>): string {
    if labels == [] then "" else if |labels| == 1 then labels[0] else labels[0] + "," + Join(labels[1..])
  }

  function Printed(name: string, labels: seq<string>, rest: string): string {
    name + "{" + Join(labels) + "}" + rest
  }

  /** The mode after reading `s`. */
  function After(mode: Mode, s: string): Mode
    decreases |s|
  {
    if s == [] then mode else After(Next(mode, s[0]), s[1..])
  }

  /** Nothing in `s` ends a pair. */
  predicate Uncut(mode: Mode, s: string)
    decreases |s|
  {
    s == [] || (!Cuts(mode, s[0]) && Uncut(Next(mode, s[0]), s[1..]))
  }

  predicate ProperName(name: string) {
    forall i :: 0 <= i < |name| ==> !EndsName(name[i])
  }

  /** A label pair: not empty, trimmed, its quotes closed, and every comma, closing brace and
      escape of it inside quotes. */
  predicate ProperLabel(pair: string) {
    pair != "" && Trim(pair) == pair && Uncut(Plain, pair) && After(Plain, pair) == Plain
  }

  lemma {:induction false} ScanUncut(mode: Mode, pair: string, labels: seq<string>, s: string, tail: string)
    requires Uncut(mode, s)
    ensures Scan(mode, pair, labels, s + tail) == Scan(After(mode, s), pair + s, labels, tail)
    decreases |s|
  {
    if s == [] {
      assert s + tail == tail && pair + s == pair;
    } else {
      assert (s + tail)[1..] == s[1..] + tail;
      assert pair + s == (pair + [s[0]]) + s[1..];
      ScanUncut(Next(mode, s[0]), pair + [s[0]], labels, s[1..], tail);
    }
  }

  /** One proper pair read up to the character that ends it. */
  lemma ScanOne(before: seq<string>, pair: string, c: char, more: string)
    requires ProperLabel(pair) && (c == ',' || c == '}')
    ensures Scan(Plain, [], before, pair + ([c] + more)) ==
            if c == '}' then Labels(before + [pair], more) else Scan(Plain, [], before + [pair], more)
  {
    hide Trim;
    ScanUncut(Plain, [], before, pair, [c] + more);
    assert [] + pair == pair && ([c] + more)[1..] == more;
  }

  lemma ScanClosed(before: seq<string>, rest: string)
    ensures Scan(Plain, [], before, "}" + rest) == Labels(before, rest)
  {
    assert ("}" + rest)[1..] == rest;
  }

  lemma {:induction false} ScanPrinted(before: seq<string>, labels: seq<string>, rest: string)
    requires forall l :: l in labels ==> ProperLabel(l)
    ensures Scan(Plain, [], before, Join(labels) + "}" + rest) == Labels(before + labels, rest)
    decreases |labels|
  {
    hide ProperLabel, Scan;
    var close: string := ['}'];
    if labels == [] {
      assert Join(labels) + close + rest == close + rest && (close + rest)[1..] == rest;
      ScanClosed(before, rest);
      assert before + labels == before;
    } else {
      if |labels| == 1 {
        assert Join(labels) + close + rest == labels[0] + (close + rest);
        ScanOne(before, labels[0], '}', rest);
        assert before + labels == before + [labels[0]];
      } else {
        var more := Join(labels[1..]) + close + rest;
        assert Join(labels) + close + rest == labels[0] + ([','] + more);
        ScanOne(before, labels[0], ',', more);
        ScanPrinted(before + [labels[0]], labels[1..], rest);
        assert (before + [labels[0]]) + labels[1..] == before + labels;
      }
    }
  }

  lemma {:induction false} NameEndsAt(name: string, tail: string)
    requires ProperName(name) && tail != [] && EndsName(tail[0])
    ensures NameEnd(name + tail) == |name|
  {
    if name == [] {
      assert name + tail == tail;
    } else {
      assert (name + tail)[1..] == name[1..] + tail;
      NameEndsAt(name[1..], tail);
    }
  }

  /** The round trip: any proper name and labels, printed with any text after them, split into
      exactly that name, those labels and that text. */
  lemma SplitUndoesPrinting(name: string, labels: seq<string>, rest: string)
    requires ProperName(name) && forall l :: l in labels ==> ProperLabel(l)
    ensures SplitOf(Printed(name, labels, rest)) == Split(name, labels, rest)
  {
    hide Scan, Join, NameEnd;
    var line, tail := Printed(name, labels, rest), "{" + Join(labels) + "}" + rest;
    assert line == name + tail;
    NameEndsAt(name, tail);
    assert line[..|name|] == name;
    assert line[|name| + 1..] == Join(labels) + "}" + rest;
    ScanPrinted([], labels, rest);
    assert [] + labels == labels;
  }

  // ----- Whatever is split is proper -----

  lemma {:induction false} AfterConcat(mode: Mode, s: string, t: string)
    ensures After(mode, s + t) == After(After(mode, s), t)
    ensures Uncut(mode, s + t) <==> Uncut(mode, s) && Uncut(After(mode, s), t)
    decreases |s|
  {
    if s == [] {
      assert s + t == t;
    } else {
      assert (s + t)[1..] == s[1..] + t;
      AfterConcat(Next(mode, s[0]), s[1..], t);
    }
  }

  /** A pair that ends outside quotes does so after its surrounding space is trimmed too. */
  lemma {:induction false} TrimStartStaysProper(s: string)
    requires Uncut(Plain, s) && After(Plain, s) == Plain
    ensures Uncut(Plain, TrimStart(s)) && After(Plain, TrimStart(s)) == Plain
    ensures TrimStart(s) == [] || !IsSpace(TrimStart(s)[0])
    decreases |s|
  {
    if s != [] && IsSpace(s[0]) {
      TrimStartStaysProper(s[1..]);
    }
  }

  lemma {:induction false} TrimEndStaysProper(s: string)
    requires Uncut(Plain, s) && After(Plain, s) == Plain
    ensures var t := TrimEnd(s);
            Uncut(Plain, t) && After(Plain, t) == Plain && t <= s && (t == [] || !IsSpace(t[|t| - 1]))
    decreases |s|
  {
    if s != [] && IsSpace(s[|s| - 1]) {
      var init, last := s[..|s| - 1], s[|s| - 1];
      assert s == init + [last];
      AfterConcat(Plain, init, [last]);
      assert After(After(Plain, init), [last]) == Next(After(Plain, init), last);
      TrimEndStaysProper(init);
    }
  }

  lemma TrimmedIsProper(pair: string)
    requires Uncut(Plain, pair) && After(Plain, pair) == Plain
    ensures Trim(pair) == "" || ProperLabel(Trim(pair))
  {
    TrimStartStaysProper(pair);
    TrimEndStaysProper(TrimStart(pair));
    var t := Trim(pair);
    if t != "" {
      assert t[0] == TrimStart(pair)[0];
      assert TrimStart(t) == t && TrimEnd(t) == t;
    }
  }

  lemma {:induction false} ScannedIsProper(mode: Mode, pair: string, labels: seq<string>, s: string)
    requires Uncut(Plain, pair) && After(Plain, pair) == mode && forall l :: l in labels ==> ProperLabel(l)
    ensures var r := Scan(mode, pair, labels, s);
            r.Labels? ==> forall l :: l in r.labels ==> ProperLabel(l)
    decreases |s|
  {
    hide ProperLabel, Trim;
    if s != [] {
      if !Cuts(mode, s[0]) {
        AfterConcat(Plain, pair, [s[0]]);
        ScannedIsProper(Next(mode, s[0]), pair + [s[0]], labels, s[1..]);
      } else {
        TrimmedIsProper(pair);
        if s[0] == ',' {
          ScannedIsProper(Plain, [], WithPair(labels, pair), s[1..]);
        }
      }
    }
  }

  /** Whatever a line splits into is a proper name and proper labels. */
  lemma SplitIsProper(line: string)
    ensures var o := SplitOf(line);
            o.Split? ==> ProperName(o.name) && forall l :: l in o.labels ==> ProperLabel(l)
  {
    hide ProperLabel;
    var end := NameEnd(line);
    if end < |line| && line[end] == '{' {
      ScannedIsProper(Plain, [], [], line[end + 1..]);
    }
  }

  /** A printed series splits into what was printed exactly when its name and labels are proper. */
  lemma SplitUndoesPrintingExactly(name: string, labels: seq<string>, rest: string)
    ensures SplitOf(Printed(name, labels, rest)) == Split(name, labels, rest) <==>
            ProperName(name) && forall l :: l in labels ==> ProperLabel(l)
  {
    hide SplitOf, Printed, ProperName, ProperLabel;
    SplitIsProper(Printed(name, labels, rest));
    if ProperName(name) && forall l :: l in labels ==> ProperLabel(l) {
      SplitUndoesPrinting(name, labels, rest);
    }
  }

  // ----- Rendered labels -----

  /** A character of a label value as the exposition format writes it. */
  function EscapedChar(c: char): string {
    if c == '\\' then "\\\\" else if c == '"' then "\\\"" else if c == '\n' then "\\n" else [c]
  }

  /** A label value as the exposition format writes it. */
  function EscapedValue(value: string): string {
    if value == [] then "" else EscapedChar(value[0]) + EscapedValue(value[1..])
  }

  function Rendered(key: string, value: string): string {
    key + "=\"" + EscapedValue(value) + "\""
  }

  predicate ProperKey(key: string) {
    forall i :: 0 <= i < |key| ==> !IsSpace(key[i]) && key[i] != '"' && key[i] != ',' && key[i] != '}'
  }

  lemma {:induction false} EscapedStaysQuoted(value: string)
    ensures Uncut(Quoted, EscapedValue(value)) && After(Quoted, EscapedValue(value)) == Quoted
  {
    if value != [] {
      EscapedStaysQuoted(value[1..]);
      var head := EscapedChar(value[0]);
      AfterConcat(Quoted, head, EscapedValue(value[1..]));
      if |head| == 2 {
        assert head[1..] == [head[1]] && head[1..][1..] == [];
        assert After(Quoted, head) == After(Escaped, head[1..]) == Quoted;
      }
    }
  }

  lemma {:induction false} KeyStaysPlain(key: string)
    requires ProperKey(key)
    ensures Uncut(Plain, key) && After(Plain, key) == Plain
  {
    if key != [] {
      KeyStaysPlain(key[1..]);
    }
  }

  /** A rendered label is proper whatever its value holds: commas, braces, quotes, backslashes. */
  lemma RenderedIsProper(key: string, value: string)
    requires ProperKey(key)
    ensures ProperLabel(Rendered(key, value))
  {
    hide Uncut, After, EscapedValue, Trim;
    var escaped, pair := EscapedValue(value), Rendered(key, value);
    KeyStaysPlain(key);
    EscapedStaysQuoted(value);
    var opening, closing: string := ['=', '"'], ['"'];
    assert pair == key + (opening + (escaped + closing));
    AfterConcat(Plain, key, opening + (escaped + closing));
    AfterConcat(Plain, opening, escaped + closing);
    OpensAndCloses(opening, closing);
    AfterConcat(Quoted, escaped, closing);
    assert pair[|pair| - 1] == '"';
    assert pair[0] == if key == [] then '=' else key[0];
    AlreadyTrimmed(pair);
  }

  lemma OpensAndCloses(opening: string, closing: string)
    requires opening == ['=', '"'] && closing == ['"']
    ensures Uncut(Plain, opening) && After(Plain, opening) == Quoted
    ensures Uncut(Quoted, closing) && After(Quoted, closing) == Plain
  {
    assert opening[1..] == closing && closing[1..] == [];
    assert After(Plain, opening) == After(Plain, closing) == After(Quoted, []);
    assert Uncut(Plain, opening) == Uncut(Plain, closing) == Uncut(Quoted, []);
    assert After(Quoted, closing) == After(Plain, []) && Uncut(Quoted, closing) == Uncut(Plain, []);
  }

  lemma AlreadyTrimmed(pair: string)
    requires pair != "" && !IsSpace(pair[0]) && !IsSpace(pair[|pair| - 1])
    ensures Trim(pair) == pair
  {
    assert TrimStart(pair) == pair && TrimEnd(pair) == pair;
  }

  function RenderedAll(pairs: seq<(string, string)>): (r: seq<string>)
    ensures |r| == |pairs| && forall i :: 0 <= i < |r| ==> r[i] == Rendered(pairs[i].0, pairs[i].1)
  {
    seq(|pairs|, i requires 0 <= i < |pairs| => Rendered(pairs[i].0, pairs[i].1))
  }

  /** Every sample of the exposition format comes back: name, rendered labels and what follows,
      for all label values. */
  lemma ExpositionRoundTrip(name: string, pairs: seq<(string, string)>, rest: string)
    requires ProperName(name) && forall i :: 0 <= i < |pairs| ==> ProperKey(pairs[i].0)
    ensures SplitOf(Printed(name, RenderedAll(pairs), rest)) == Split(name, RenderedAll(pairs), rest)
  {
    hide SplitOf, Printed, ProperName, ProperLabel, Rendered, ProperKey;
    var labels := RenderedAll(pairs);
    forall l | l in labels ensures ProperLabel(l) {
      var i :| 0 <= i < |labels| && labels[i] == l;
      RenderedIsProper(pairs[i].0, pairs[i].1);
    }
    SplitUndoesPrinting(name, labels, rest);
  }

  // ----- The sample map -----

  /** Code-point order. */
  predicate AtMost(a: string, b: string)
    decreases |a|
  {
    a == [] || (b != [] && (a[0] < b[0] || (a[0] == b[0] && AtMost(a[1..], b[1..]))))
  }

  lemma {:induction false} AtMostIsTotalOrder(a: string, b: string, c: string)
    ensures AtMost(a, b) || AtMost(b, a)
    ensures AtMost(a, b) && AtMost(b, a) ==> a == b
    ensures AtMost(a, b) && AtMost(b, c) ==> AtMost(a, c)
    decreases |a|
  {
    if a != [] && b != [] {
      AtMostIsTotalOrder(a[1..], b[1..], if c == [] then [] else c[1..]);
      assert a == [a[0]] + a[1..] && b == [b[0]] + b[1..];
    }
  }

  lemma CodePointOrder()
    ensures TotalPreorder(AtMost) && Antisymmetric(AtMost)
  {
    forall a: string, b: string, c: string
      ensures AtMost(a, b) || AtMost(b, a)
      ensures AtMost(a, b) && AtMost(b, a) ==> a == b
      ensures AtMost(a, b) && AtMost(b, c) ==> AtMost(a, c)
    {
      AtMostIsTotalOrder(a, b, c);
    }
  }

  /** The map key of a series: its name, and its labels sorted. */
  function SeriesKey(name: string, labels: seq<string>): string {
    if labels == [] then name else Printed(name, Sorted(AtMost, labels), "")
  }

  lemma SortKeepsProper(labels: seq<string>)
    requires forall l :: l in labels ==> ProperLabel(l)
    ensures |Sorted(AtMost, labels)| == |labels| && forall l :: l in Sorted(AtMost, labels) ==> ProperLabel(l)
  {
    hide ProperLabel;
    SortedItems(AtMost, labels);
    forall l | l in Sorted(AtMost, labels) ensures ProperLabel(l) {
      assert l in multiset(Sorted(AtMost, labels)) && l in multiset(labels);
    }
  }

  lemma NameHasNoBrace(name: string, other: string, labels: seq<string>)
    requires ProperName(name)
    ensures name != Printed(other, labels, "")
  {
    assert Printed(other, labels, "")[|other|] == '{';
    if |name| > |other| {
      assert !EndsName(name[|other|]);
    }
  }

  /** Two split lines share a map key exactly when they name the same series: the same name and
      the same labels in any order. */
  lemma KeysAreSeries(name: string, labels: seq<string>, other: string, others: seq<string>)
    requires ProperName(name) && ProperName(other)
    requires (forall l :: l in labels ==> ProperLabel(l)) && forall l :: l in others ==> ProperLabel(l)
    ensures SeriesKey(name, labels) == SeriesKey(other, others) <==>
            name == other && multiset(labels) == multiset(others)
  {
    hide Printed, SplitOf, ProperName, ProperLabel, Sorted;
    SortKeepsProper(labels);
    SortKeepsProper(others);
    SortedItems(AtMost, labels);
    SortedItems(AtMost, others);
    if multiset(labels) == multiset(others) {
      CodePointOrder();
      SortedRearranged(AtMost, labels, others);
      assert |multiset(labels)| == |labels| && |multiset(others)| == |others|;
    }
    NameHasNoBrace(name, other, Sorted(AtMost, others));
    NameHasNoBrace(other, name, Sorted(AtMost, labels));
    SplitUndoesPrinting(name, Sorted(AtMost, labels), "");
    SplitUndoesPrinting(other, Sorted(AtMost, others), "");
  }

  /** Reading a value, as the library's number parser does. */
  type NumberParser = string -> Option<real>

  function FirstToken(s: string): Option<string> {
    var t := TrimStart(s);
    if t == [] then None else Some(t[..TokenEnd(t)])
  }

  function TokenEnd(s: string): (k: nat)
    ensures k <= |s|
  {
    if s == [] || IsSpace(s[0]) then 0 else 1 + TokenEnd(s[1..])
  }

  datatype LineRead = Skipped | Entry(key: string, value: real) | Bad

  /** What a line of the body adds. */
  function ReadLine(parse: NumberParser, raw: string): LineRead {
    var line := Trim(raw);
    if line == [] || line[0] == '#' then Skipped
    else
      match SplitOf(line)
      case NoValue => Bad
      case Unterminated => Bad
      case Split(name, labels, rest) =>
        match FirstToken(rest)
        case None => Bad
        case Some(token) =>
          match parse(token)
          case None => Bad
          case Some(value) => Entry(SeriesKey(name, labels), value)
  }

  /** The samples of the first `k` lines; a later line of the same series wins. */
  function SamplesOf(parse: NumberParser, lines: seq<string>, k: nat): Option<map<string, real>>
    requires k <= |lines|
  {
    if k == 0 then Some(map[])
    else
      match SamplesOf(parse, lines, k - 1)
      case None => None
      case Some(samples) =>
        match ReadLine(parse, lines[k - 1])
        case Skipped => Some(samples)
        case Bad => None
        case Entry(key, value) => Some(samples[key := value])
  }

  method ParseSamples(parse: NumberParser, lines: seq<string>) returns (result: Option<map<string, real>>)
    ensures result == SamplesOf(parse, lines, |lines|)
  {
    hide ReadLine;
    var samples: map<string, real> := map[];
    for k := 0 to |lines|
      invariant SamplesOf(parse, lines, k) == Some(samples)
    {
      var r := ReadLine(parse, lines[k]);
      match r {
        case Skipped =>
        case Bad =>
          BadStays(parse, lines, k + 1, |lines|);
          return None;
        case Entry(key, value) =>
          samples := samples[key := value];
      }
    }
    result := Some(samples);
  }

  lemma {:induction false} BadStays(parse: NumberParser, lines: seq<string>, j: nat, k: nat)
    requires j <= k <= |lines| && SamplesOf(parse, lines, j) == None
    ensures SamplesOf(parse, lines, k) == None
  {
    hide ReadLine;
    if j < k {
      BadStays(parse, lines, j, k - 1);
    }
  }

  /** The last line of a series among the first `k`, or -1. */
  function LastLine(parse: NumberParser, lines: seq<string>, k: nat, key: string): (i: int)
    requires k <= |lines|
    ensures -1 <= i < k
    ensures i >= 0 ==> ReadLine(parse, lines[i]).Entry? && ReadLine(parse, lines[i]).key == key
    ensures forall j :: i < j < k ==> !(ReadLine(parse, lines[j]).Entry? && ReadLine(parse, lines[j]).key == key)
  {
    if k == 0 then -1
    else if ReadLine(parse, lines[k - 1]).Entry? && ReadLine(parse, lines[k - 1]).key == key then k - 1
    else LastLine(parse, lines, k - 1, key)
  }

  /** A body is parsed exactly when no line of it is bad, and then each series has the value of
      its last line, and nothing else is in the map. */
  lemma {:induction false} SamplesAreLastValues(parse: NumberParser, lines: seq<string>, k: nat, key: string)
    requires k <= |lines|
    ensures var samples := SamplesOf(parse, lines, k);
            (samples.Some? <==> forall i :: 0 <= i < k ==> !ReadLine(parse, lines[i]).Bad?) &&
            (samples.Some? ==>
               var i := LastLine(parse, lines, k, key);
               (key in samples.value <==> i >= 0) &&
               (i >= 0 ==> samples.value[key] == ReadLine(parse, lines[i]).value))
  {
    hide ReadLine;
    if k > 0 {
      SamplesAreLastValues(parse, lines, k - 1, key);
    }
  }


  // ----- Any line -----

  /** The closing brace at `k` is outside quotes. */
  predicate Closes(mode: Mode, s: string, k: nat) {
    k < |s| && s[k] == '}' && After(mode, s[..k]) == Plain
  }

  /** A label list is open exactly when no brace closes it outside quotes; otherwise the text
      after it starts behind the first that does. */
  lemma {:induction false} ScanEndsAtBrace(mode: Mode, pair: string, labels: seq<string>, s: string)
    ensures var r := Scan(mode, pair, labels, s);
            (r.Open? <==> forall k :: 0 <= k < |s| ==> !Closes(mode, s, k)) &&
            forall k :: 0 <= k < |s| && Closes(mode, s, k) && (forall j :: 0 <= j < k ==> !Closes(mode, s, j)) ==>
              r.Labels? && r.rest == s[k + 1..]
    decreases |s|
  {
    hide WithPair;
    if s != [] {
      var mode' := Next(mode, s[0]);
      var closed := mode == Plain && s[0] == '}';
      assert Closes(mode, s, 0) <==> closed;
      forall k | 0 < k < |s| ensures Closes(mode, s, k) <==> Closes(mode', s[1..], k - 1) {
        assert s[..k][1..] == s[1..][..k - 1];
      }
      forall k | 0 <= k < |s| - 1 ensures Closes(mode', s[1..], k) <==> Closes(mode, s, k + 1) {
      }
      if !closed {
        if Cuts(mode, s[0]) {
          ScanEndsAtBrace(Plain, [], WithPair(labels, pair), s[1..]);
        } else {
          ScanEndsAtBrace(mode', pair + [s[0]], labels, s[1..]);
        }
      }
    }
  }

  lemma {:induction false} NameEndIs(line: string, n: nat)
    requires n < |line| && ProperName(line[..n]) && EndsName(line[n])
    ensures NameEnd(line) == n
  {
    assert line == line[..n] + line[n..];
    NameEndsAt(line[..n], line[n..]);
  }

  /** Every line: without a brace or space there is no value. With its first one at `n`, the name
      stops there. A space leaves no labels and all that follows. A brace opens labels, which must
      be closed outside quotes, and the rest is what follows the first brace that does so. */
  lemma EveryLineSplits(line: string, n: nat)
    ensures SplitOf(line).NoValue? <==> ProperName(line)
    ensures n < |line| && ProperName(line[..n]) && IsSpace(line[n]) ==>
              SplitOf(line) == Split(line[..n], [], line[n..])
    ensures n < |line| && ProperName(line[..n]) && line[n] == '{' ==>
              var s := line[n + 1..];
              (SplitOf(line).Unterminated? <==> forall k :: 0 <= k < |s| ==> !Closes(Plain, s, k)) &&
              forall k :: 0 <= k < |s| && Closes(Plain, s, k) && (forall j :: 0 <= j < k ==> !Closes(Plain, s, j)) ==>
                SplitOf(line).Split? && SplitOf(line).name == line[..n] && SplitOf(line).rest == s[k + 1..]
  {
    hide Scan, Closes, IsSpace;
    if n < |line| && ProperName(line[..n]) && EndsName(line[n]) {
      NameEndIs(line, n);
      BraceIsNoSpace();
      ScanEndsAtBrace(Plain, [], [], line[n + 1..]);
    }
  }

  lemma BraceIsNoSpace()
    ensures !IsSpace('{') && !IsSpace('"') && !IsSpace('}') && !IsSpace(',') && !IsSpace('#')
  {
  }

  // ----- Padding -----

  predicate AllSpace(s: string) {
    forall i :: 0 <= i < |s| ==> IsSpace(s[i])
  }

  /** An entry of a label list as written: a label, or nothing, with space around it. */
  datatype Slot = Slot(left: string, pair: string, right: string)

  predicate ProperSlot(slot: Slot) {
    AllSpace(slot.left) && AllSpace(slot.right) && (slot.pair == "" || ProperLabel(slot.pair))
  }

  function Texts(slots: seq<Slot>): seq<string> {
    if slots == [] then [] else [slots[0].left + slots[0].pair + slots[0].right] + Texts(slots[1..])
  }

  /** The labels of the entries that hold one. */
  function Kept(slots: seq<Slot>): seq<string> {
    if slots == [] then [] else (if slots[0].pair == "" then [] else [slots[0].pair]) + Kept(slots[1..])
  }

  lemma {:induction false} TrimStartSkips(left: string, s: string)
    requires AllSpace(left) && (s == "" || !IsSpace(s[0]))
    ensures TrimStart(left + s) == s
  {
    hide IsSpace;
    if left == "" {
      assert left + s == s;
    } else {
      assert (left + s)[1..] == left[1..] + s;
      TrimStartSkips(left[1..], s);
    }
  }

  lemma {:induction false} TrimEndSkips(s: string, right: string)
    requires AllSpace(right) && (s == "" || !IsSpace(s[|s| - 1]))
    ensures TrimEnd(s + right) == s
    decreases |right|
  {
    hide IsSpace;
    if right == "" {
      assert s + right == s;
    } else {
      var init := right[..|right| - 1];
      assert (s + right)[..|s + right| - 1] == s + init;
      TrimEndSkips(s, init);
    }
  }

  /** Space around a text that has none at its ends is trimmed, and no more. */
  lemma TrimSkips(left: string, s: string, right: string)
    requires AllSpace(left) && AllSpace(right) && (s == "" || (!IsSpace(s[0]) && !IsSpace(s[|s| - 1])))
    ensures Trim(left + s + right) == s
  {
    hide IsSpace, TrimStart, TrimEnd;
    if s == "" {
      TrimStartSkips(left + right, "");
      assert left + s + right == (left + right) + "";
      TrimEndSkips("", "");
      assert "" + "" == "";
    } else {
      assert left + s + right == left + (s + right);
      TrimStartSkips(left, s + right);
      TrimEndSkips(s, right);
    }
  }

  lemma {:induction false} TrimmedLengths(s: string)
    ensures |TrimEnd(s)| <= |s| && |TrimStart(s)| <= |s|
    decreases |s|
  {
    hide IsSpace;
    if s != [] {
      TrimmedLengths(s[1..]);
      TrimmedLengths(s[..|s| - 1]);
    }
  }

  lemma TrimmedEnds(s: string)
    requires s != "" && Trim(s) == s
    ensures !IsSpace(s[0]) && !IsSpace(s[|s| - 1])
  {
    hide IsSpace;
    TrimmedLengths(TrimStart(s));
    TrimmedLengths(s[1..]);
    TrimmedLengths(s[..|s| - 1]);
  }

  lemma {:induction false} SpaceIsPlain(s: string)
    requires AllSpace(s)
    ensures Uncut(Plain, s) && After(Plain, s) == Plain
  {
    if s != "" {
      BraceIsNoSpace();
      SpaceIsPlain(s[1..]);
    }
  }

  lemma SlotIsUncut(slot: Slot)
    requires ProperSlot(slot)
    ensures var text := slot.left + slot.pair + slot.right;
            Uncut(Plain, text) && After(Plain, text) == Plain && Trim(text) == slot.pair
  {
    hide IsSpace, Uncut, After, Trim;
    SpaceIsPlain(slot.left);
    SpaceIsPlain(slot.right);
    SpaceIsPlain("");
    AfterConcat(Plain, slot.left, slot.pair);
    AfterConcat(Plain, slot.left + slot.pair, slot.right);
    if slot.pair != "" {
      TrimmedEnds(slot.pair);
    }
    TrimSkips(slot.left, slot.pair, slot.right);
  }

  lemma ScanSlot(before: seq<string>, text: string, c: char, more: string)
    requires Uncut(Plain, text) && After(Plain, text) == Plain && (c == ',' || c == '}')
    ensures Scan(Plain, [], before, text + ([c] + more)) ==
            if c == '}' then Labels(WithPair(before, text), more) else Scan(Plain, [], WithPair(before, text), more)
  {
    hide Trim;
    ScanUncut(Plain, [], before, text, [c] + more);
    assert [] + text == text && ([c] + more)[1..] == more;
  }

  lemma {:induction false} ScanSlots(before: seq<string>, slots: seq<Slot>, rest: string)
    requires slots != [] && forall x :: x in slots ==> ProperSlot(x)
    ensures Scan(Plain, [], before, Join(Texts(slots)) + "}" + rest) == Labels(before + Kept(slots), rest)
    decreases |slots|
  {
    hide ProperSlot, Scan, Trim, Uncut, After, Texts, Kept, Join;
    var close: string, comma: string := ['}'], [','];
    var x := slots[0];
    var text := x.left + x.pair + x.right;
    var kept := if x.pair == "" then before else before + [x.pair];
    SlotIsUncut(x);
    FirstSlot(before, slots);
    if |slots| == 1 {
      assert text + close + rest == text + (close + rest);
      ScanSlot(before, text, '}', rest);
    } else {
      var more := Join(Texts(slots[1..])) + close + rest;
      assert (text + comma + Join(Texts(slots[1..]))) + close + rest == text + (comma + more);
      ScanSlot(before, text, ',', more);
      ScanSlots(kept, slots[1..], rest);
    }
  }

  lemma FirstSlot(before: seq<string>, slots: seq<Slot>)
    requires slots != []
    ensures var x := slots[0];
            var text := x.left + x.pair + x.right;
            var kept := if x.pair == "" then before else before + [x.pair];
            Join(Texts(slots)) == (if |slots| == 1 then text else text + "," + Join(Texts(slots[1..]))) &&
            before + Kept(slots) == if |slots| == 1 then kept else kept + Kept(slots[1..])
  {
    hide Join;
    var x := slots[0];
    JoinFirst(x.left + x.pair + x.right, Texts(slots[1..]));
    KeptFirst(before, x, slots[1..]);
    assert slots == [x] + slots[1..];
  }

  lemma JoinFirst(text: string, more: seq<string>)
    ensures Join([text] + more) == if more == [] then text else text + "," + Join(more)
  {
    assert ([text] + more)[1..] == more;
  }

  lemma KeptFirst(before: seq<string>, x: Slot, more: seq<Slot>)
    ensures before + Kept([x] + more) == (if x.pair == "" then before else before + [x.pair]) + Kept(more)
  {
    assert ([x] + more)[1..] == more;
  }

  /** Space around labels and entries without one, as after a trailing comma, change nothing:
      the labels come back, in their order, with the text after them. */
  lemma PaddingIsIgnored(name: string, slots: seq<Slot>, rest: string)
    requires ProperName(name) && slots != [] && forall x :: x in slots ==> ProperSlot(x)
    ensures SplitOf(Printed(name, Texts(slots), rest)) == Split(name, Kept(slots), rest)
  {
    hide Scan, Join, NameEnd, ProperSlot, Texts, Kept;
    var line, tail := Printed(name, Texts(slots), rest), "{" + Join(Texts(slots)) + "}" + rest;
    assert line == name + tail;
    NameEndsAt(name, tail);
    assert line[..|name|] == name;
    assert line[|name| + 1..] == Join(Texts(slots)) + "}" + rest;
    ScanSlots([], slots, rest);
    assert [] + Kept(slots) == Kept(slots);
  }

  // ----- Lines of a body -----

  /** A value as written: a token after `gap`, then nothing or more text set off by space. */
  predicate ProperValue(gap: string, token: string, more: string) {
    AllSpace(gap) && token != "" && (forall i :: 0 <= i < |token| ==> !IsSpace(token[i])) &&
    (more == "" || (IsSpace(more[0]) && !IsSpace(more[|more| - 1])))
  }

  lemma {:induction false} TokenEndsAt(token: string, more: string)
    requires (forall i :: 0 <= i < |token| ==> !IsSpace(token[i])) && (more == "" || IsSpace(more[0]))
    ensures TokenEnd(token + more) == |token|
  {
    hide IsSpace;
    if token == "" {
      assert token + more == more;
    } else {
      assert (token + more)[1..] == token[1..] + more;
      TokenEndsAt(token[1..], more);
    }
  }

  lemma FirstTokenIs(gap: string, token: string, more: string)
    requires ProperValue(gap, token, more)
    ensures FirstToken(gap + token + more) == Some(token)
  {
    hide IsSpace, TrimStart, TokenEnd;
    assert gap + token + more == gap + (token + more);
    TrimStartSkips(gap, token + more);
    TokenEndsAt(token, more);
  }

  /** What a line with this key and value token adds. */
  function EntryOf(parse: NumberParser, key: string, token: string): LineRead {
    if parse(token).Some? then Entry(key, parse(token).value) else Bad
  }

  /** A sample line of the exposition format is read: labels, space anywhere and a timestamp or
      not, it adds its value under its series, and is bad only if the value does not parse. */
  lemma LabelledLineIsRead(parse: NumberParser, left: string, name: string, slots: seq<Slot>, gap: string,
                           token: string, more: string, right: string)
    requires ProperName(name) && (name == "" || name[0] != '#')
    requires slots != [] && forall x :: x in slots ==> ProperSlot(x)
    requires AllSpace(left) && AllSpace(right) && ProperValue(gap, token, more)
    ensures ReadLine(parse, left + Printed(name, Texts(slots), gap + token + more) + right) ==
            EntryOf(parse, SeriesKey(name, Kept(slots)), token)
  {
    hide IsSpace, Trim, ProperSlot, Texts, Kept, SplitOf, SeriesKey, FirstToken, Join;
    var line := Printed(name, Texts(slots), gap + token + more);
    PrintedEnds(name, Texts(slots), gap, token, more);
    TrimSkips(left, line, right);
    PaddingIsIgnored(name, slots, gap + token + more);
    FirstTokenIs(gap, token, more);
  }

  lemma PrintedEnds(name: string, labels: seq<string>, gap: string, token: string, more: string)
    requires ProperName(name) && (name == "" || name[0] != '#') && ProperValue(gap, token, more)
    ensures var line := Printed(name, labels, gap + token + more);
            line != "" && line[0] != '#' && !IsSpace(line[0]) && !IsSpace(line[|line| - 1])
  {
    hide IsSpace, Join;
    BraceIsNoSpace();
    var line := Printed(name, labels, gap + token + more);
    assert line[0] == if name == "" then '{' else name[0];
    assert name != "" ==> !EndsName(name[0]);
    assert line[|line| - 1] == if more == "" then token[|token| - 1] else more[|more| - 1];
  }

  /** The same without labels, where some space must set off the value. */
  lemma PlainLineIsRead(parse: NumberParser, left: string, name: string, gap: string, token: string, more: string,
                        right: string)
    requires ProperName(name) && name != "" && name[0] != '#' && gap != ""
    requires AllSpace(left) && AllSpace(right) && ProperValue(gap, token, more)
    ensures ReadLine(parse, left + (name + (gap + token + more)) + right) == EntryOf(parse, name, token)
  {
    hide IsSpace, Trim, SplitOf, FirstToken;
    var line := name + (gap + token + more);
    assert !EndsName(name[0]) && line[0] == name[0];
    assert line[|line| - 1] == if more == "" then token[|token| - 1] else more[|more| - 1];
    TrimSkips(left, line, right);
    assert line[..|name|] == name && line[|name|..] == gap + token + more && line[|name|] == gap[0];
    EveryLineSplits(line, |name|);
    FirstTokenIs(gap, token, more);
  }

  /** A line is skipped exactly when it is all space or its first other character is a hash. */
  lemma SkippedExactly(parse: NumberParser, raw: string)
    ensures ReadLine(parse, raw).Skipped? <==>
            AllSpace(raw) || exists i :: 0 <= i < |raw| && raw[i] == '#' && AllSpace(raw[..i])
  {
    hide IsSpace, TrimStart, TrimEnd, SplitOf, SeriesKey, FirstToken;
    var n := LeadingSpace(raw);
    assert raw == raw[..n] + raw[n..];
    TrimStartSkips(raw[..n], raw[n..]);
    if n < |raw| {
      EndTrimKeepsHead(raw[n..]);
      forall i | n < i < |raw| ensures !AllSpace(raw[..i]) {
        assert raw[..i][n] == raw[n];
      }
      BraceIsNoSpace();
      assert forall i :: 0 <= i < n ==> IsSpace(raw[..n][i]) && raw[..n][i] == raw[i];
      assert !AllSpace(raw);
    } else {
      TrimEndSkips("", "");
      assert raw[n..] == "" && "" + "" == "" && raw[..n] == raw;
    }
  }

  function LeadingSpace(s: string): (n: nat)
    ensures n <= |s| && AllSpace(s[..n]) && (n < |s| ==> !IsSpace(s[n]))
  {
    if s == [] || !IsSpace(s[0]) then 0
    else
      var n := 1 + LeadingSpace(s[1..]);
      assert s[..n] == [s[0]] + s[1..][..n - 1];
      n
  }

  lemma {:induction false} EndTrimKeepsHead(s: string)
    requires s != "" && !IsSpace(s[0])
    ensures TrimEnd(s) != "" && TrimEnd(s)[0] == s[0]
    decreases |s|
  {
    hide IsSpace;
    if IsSpace(s[|s| - 1]) {
      EndTrimKeepsHead(s[..|s| - 1]);
    }
  }

  /** The key of a series without labels is its name; the key of one with labels splits back into
      its name and its labels in ascending order, with nothing after them. */
  lemma KeySplitsBack(name: string, labels: seq<string>)
    requires ProperName(name) && forall l :: l in labels ==> ProperLabel(l)
    ensures labels == [] ==> SeriesKey(name, labels) == name
    ensures labels != [] ==>
              var o := SplitOf(SeriesKey(name, labels));
              o.Split? && o.name == name && o.rest == "" && multiset(o.labels) == multiset(labels) &&
              forall i, j :: 0 <= i < j < |o.labels| ==> AtMost(o.labels[i], o.labels[j])
  {
    hide Printed, SplitOf, ProperName, ProperLabel, Sorted;
    if labels != [] {
      SortKeepsProper(labels);
      SortedItems(AtMost, labels);
      CodePointOrder();
      SortedAscends(AtMost, labels);
      SplitUndoesPrinting(name, Sorted(AtMost, labels), "");
    }
  }
}
