/** The text of a table: one line per version (src/sstable.cpp), and how a line is read back. */
module TableText {
  import opened Options
  import opened Mvcc
  import opened Decimal

  /** One version of one key, as a line holds it. */
  datatype Record = Record(key: string, version: Version)

  predicate IsSpace(c: char) {
    c == ' ' || c == '\t' || c == '\n' || c == '\r' || c == (11 as char) || c == (12 as char)
  }

  predicate NoSpaces(s: string) {
    forall i :: 0 <= i < |s| ==> !IsSpace(s[i])
  }

  /** What the format can carry: keys without white space, values of one line that do not start with it. */
  predicate GoodKey(key: string) {
    key != "" && NoSpaces(key)
  }

  predicate GoodValue(value: string) {
    '\n' !in value && (value != "" ==> !IsSpace(value[0]))
  }

  predicate GoodRecord(r: Record) {
    GoodKey(r.key) && (r.version.value.Some? ==> GoodValue(r.version.value.value))
  }

  predicate GoodRecords(rs: seq<Record>) {
    forall i :: 0 <= i < |rs| ==> GoodRecord(rs[i])
  }

  // ---- writing ----

  function Tail(v: Version): string {
    match v.value
    case Some(text) => "P\t" + text
    case None => "D"
  }

  function LineOf(r: Record): string {
    r.key + "\t" + ToString(r.version.timestamp) + "\t" + Tail(r.version)
  }

  function Render(rs: seq<Record>): string {
    if rs == [] then "" else Render(rs[..|rs| - 1]) + LineOf(rs[|rs| - 1]) + "\n"
  }

  /** Where record i starts. */
  function Offset(rs: seq<Record>, i: nat): nat
    requires i <= |rs|
  {
    |Render(rs[..i])|
  }

  // ---- reading one line ----

  function SkipSpaces(s: string): string {
    if s != "" && IsSpace(s[0]) then SkipSpaces(s[1..]) else s
  }

  /** Length of the leading part without white space. */
  function WordLength(s: string): (n: nat)
    ensures n <= |s|
  {
    if s == "" || IsSpace(s[0]) then 0 else 1 + WordLength(s[1..])
  }

  function DigitsLength(s: string): (n: nat)
    ensures n <= |s| && AllDigits(s[..n])
  {
    if s == "" || !IsDigit(s[0]) then 0 else 1 + DigitsLength(s[1..])
  }

  /** What `row >> key >> timestamp >> type` leaves behind. */
  datatype Row = Row(key: string, timestamp: nat, kind: char, rest: string)

  function ParseRow(line: string): Option<Row> {
    var a := SkipSpaces(line);
    var n := WordLength(a);
    if n == 0 then None else
    var b := SkipSpaces(a[n..]);
    var m := DigitsLength(b);
    if m == 0 then None else
    var d := SkipSpaces(b[m..]);
    if d == "" then None else Some(Row(a[..n], Parse(b[..m]), d[0], d[1..]))
  }

  /** The first word alone, as the index and the filter read it. */
  function ParseKey(line: string): Option<string> {
    var a := SkipSpaces(line);
    var n := WordLength(a);
    if n == 0 then None else Some(a[..n])
  }

  /** The version of a row; a kind other than P or D has none. */
  function RowVersion(row: Row): Option<Version> {
    if row.kind == 'P' then Some(Version(row.timestamp, Some(SkipSpaces(row.rest))))
    else if row.kind == 'D' then Some(Version(row.timestamp, None))
    else None
  }

  lemma {:induction false} WordLengthOf(word: string, rest: string)
    requires NoSpaces(word) && (rest == "" || IsSpace(rest[0]))
    ensures WordLength(word + rest) == |word|
  {
    if word == "" {
      assert word + rest == rest;
    } else {
      assert (word + rest)[1..] == word[1..] + rest;
      WordLengthOf(word[1..], rest);
    }
  }

  lemma {:induction false} DigitsLengthOf(digits: string, rest: string)
    requires AllDigits(digits) && (rest == "" || !IsDigit(rest[0]))
    ensures DigitsLength(digits + rest) == |digits|
  {
    if digits == "" {
      assert digits + rest == rest;
    } else {
      assert (digits + rest)[1..] == digits[1..] + rest;
      DigitsLengthOf(digits[1..], rest);
    }
  }

  lemma SkipOneTab(s: string)
    requires s != "" && !IsSpace(s[0])
    ensures SkipSpaces("\t" + s) == s
  {
    assert ("\t" + s)[1..] == s;
  }

  lemma ParseFields(key: string, digits: string, tail: string)
    requires GoodKey(key) && AllDigits(digits) && digits != "" && tail != "" && !IsSpace(tail[0])
    ensures ParseRow(key + "\t" + digits + "\t" + tail) == Some(Row(key, Parse(digits), tail[0], tail[1..]))
    ensures ParseKey(key + "\t" + digits + "\t" + tail) == Some(key)
  {
    var line := key + "\t" + digits + "\t" + tail;
    var rest1 := "\t" + digits + "\t" + tail;
    var rest2 := "\t" + tail;
    assert line == key + rest1;
    assert line[0] == key[0];
    WordLengthOf(key, rest1);
    assert line[..|key|] == key && line[|key|..] == rest1;
    assert rest1 == "\t" + (digits + rest2);
    assert IsDigit((digits + rest2)[0]);
    SkipOneTab(digits + rest2);
    DigitsLengthOf(digits, rest2);
    assert (digits + rest2)[..|digits|] == digits && (digits + rest2)[|digits|..] == rest2;
    SkipOneTab(tail);
  }

  /** A written line reads back as the record it came from. */
  lemma LineRoundTrip(r: Record)
    requires GoodRecord(r)
    ensures ParseKey(LineOf(r)) == Some(r.key)
    ensures ParseRow(LineOf(r)).Some?
    ensures var row := ParseRow(LineOf(r)).value;
      row.key == r.key && row.timestamp == r.version.timestamp && RowVersion(row) == Some(r.version)
  {
    var digits, tail := ToString(r.version.timestamp), Tail(r.version);
    ParseFields(r.key, digits, tail);
    ParseToString(r.version.timestamp);
    if r.version.value.Some? {
      var text := r.version.value.value;
      assert tail[1..] == "\t" + text;
      if text == "" {
        assert SkipSpaces("\t") == "" by { assert "\t"[1..] == ""; }
        assert tail[1..] == "\t";
      } else {
        SkipOneTab(text);
      }
    }
  }

  // ---- what a line can hold ----

  lemma {:induction false} Skipped(s: string)
    ensures |SkipSpaces(s)| <= |s| && SkipSpaces(s) == s[|s| - |SkipSpaces(s)|..]
    ensures SkipSpaces(s) != "" ==> !IsSpace(SkipSpaces(s)[0])
  {
    if s != "" && IsSpace(s[0]) { Skipped(s[1..]); }
  }

  lemma {:induction false} WordIsGood(s: string)
    requires WordLength(s) > 0
    ensures GoodKey(s[..WordLength(s)])
  {
    if WordLength(s) > 1 { WordIsGood(s[1..]); }
    var w := s[..WordLength(s)];
    forall i | 0 <= i < |w| ensures !IsSpace(w[i]) {
      if i > 0 { assert w[i] == s[1..][..WordLength(s[1..])][i - 1]; }
    }
  }

  lemma SkippedLine(s: string)
    requires '\n' !in s
    ensures '\n' !in SkipSpaces(s)
  {
    Skipped(s);
  }

  /** Whatever stands in a line, a row of it has a good key and a good value. */
  lemma RowIsGood(line: string)
    requires '\n' !in line && ParseRow(line).Some?
    ensures GoodKey(ParseRow(line).value.key) && GoodValue(SkipSpaces(ParseRow(line).value.rest))
  {
    var a := SkipSpaces(line);
    SkippedLine(line);
    WordIsGood(a);
    var b := SkipSpaces(a[WordLength(a)..]);
    SkippedLine(a[WordLength(a)..]);
    var d := SkipSpaces(b[DigitsLength(b)..]);
    SkippedLine(b[DigitsLength(b)..]);
    SkippedLine(d[1..]);
    Skipped(d[1..]);
  }

  // ---- reading lines ----

  /** Where the line that starts at pos ends: at its newline or at the end of the file. */
  function LineEnd(text: string, pos: nat): (e: nat)
    requires pos <= |text|
    ensures pos <= e <= |text|
    decreases |text| - pos
  {
    if pos == |text| || text[pos] == '\n' then pos else LineEnd(text, pos + 1)
  }

  /** Where the next line starts. */
  function NextLine(text: string, pos: nat): (n: nat)
    requires pos < |text|
    ensures pos < n <= |text|
  {
    var e := LineEnd(text, pos);
    if e < |text| then e + 1 else |text|
  }

  lemma {:induction false} LineEndAt(text: string, pos: nat, e: nat)
    requires pos <= e < |text| && text[e] == '\n' && '\n' !in text[pos..e]
    ensures LineEnd(text, pos) == e
    decreases e - pos
  {
    if pos < e {
      assert text[pos] == text[pos..e][0];
      assert text[pos + 1..e] == text[pos..e][1..];
      LineEndAt(text, pos + 1, e);
    }
  }

  lemma {:induction false} LineHasNoNewline(text: string, pos: nat)
    requires pos <= |text|
    ensures '\n' !in text[pos..LineEnd(text, pos)]
    decreases |text| - pos
  {
    if LineEnd(text, pos) > pos {
      LineHasNoNewline(text, pos + 1);
      assert text[pos..LineEnd(text, pos)] == [text[pos]] + text[pos + 1..LineEnd(text, pos)];
    }
  }

  lemma NoNewline(r: Record)
    requires GoodRecord(r)
    ensures '\n' !in LineOf(r)
  {
    assert forall i :: 0 <= i < |r.key| ==> r.key[i] != '\n';
    assert forall c :: c in ToString(r.version.timestamp) ==> IsDigit(c);
  }

  lemma {:induction false} RenderPrefix(rs: seq<Record>, i: nat)
    requires i <= |rs|
    ensures Render(rs[..i]) <= Render(rs)
    ensures i < |rs| ==> Render(rs[..i]) + LineOf(rs[i]) + "\n" <= Render(rs)
    decreases |rs|
  {
    if i == |rs| {
      assert rs[..i] == rs;
    } else if i == |rs| - 1 {
    } else {
      var front := rs[..|rs| - 1];
      RenderPrefix(front, i);
      assert front[..i] == rs[..i];
    }
  }

  lemma LineInside(text: string, pre: string, line: string, pos: nat, next: nat)
    requires pre + line + "\n" <= text && '\n' !in line && pos == |pre| && next == pos + |line| + 1
    ensures pos < |text| && NextLine(text, pos) == next && text[pos..LineEnd(text, pos)] == line
  {
    var upto, e := pre + line + "\n", pos + |line|;
    assert text[pos..e] == upto[pos..e] == line;
    assert text[e] == upto[e] == '\n';
    LineEndAt(text, pos, e);
  }

  /** The line at the offset of record i is that record's line, and the next line is the next record's. */
  lemma LineAt(rs: seq<Record>, i: nat)
    requires GoodRecords(rs) && i < |rs|
    ensures var text, pos := Render(rs), Offset(rs, i);
      && pos < |text|
      && NextLine(text, pos) == Offset(rs, i + 1)
      && text[pos..LineEnd(text, pos)] == LineOf(rs[i])
  {
    RenderPrefix(rs, i);
    NoNewline(rs[i]);
    OffsetNext(rs, i);
    LineInside(Render(rs), Render(rs[..i]), LineOf(rs[i]), Offset(rs, i), Offset(rs, i + 1));
  }

  lemma OffsetNext(rs: seq<Record>, i: nat)
    requires i < |rs|
    ensures Offset(rs, i + 1) == Offset(rs, i) + |LineOf(rs[i])| + 1
  {
    assert rs[..i + 1][..i] == rs[..i];
  }

  lemma OffsetEnds(rs: seq<Record>)
    ensures Offset(rs, 0) == 0 && Offset(rs, |rs|) == |Render(rs)|
  {
    assert rs[..0] == [] && rs[..|rs|] == rs;
  }
}
