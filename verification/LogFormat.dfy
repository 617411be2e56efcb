/**
 The log-format compiler: a format string is split at its percent signs, turned into a table
 that alternates literal text and fields, and rendered into a line of bounded length.

 Field values are found at the offsets of their pointers in `log_data_t`, as laid out for
 64-bit pointers.
 */
module LogFormat {

  const MAX_LINE: nat := 12288

  /** A table entry: a field when the offset is positive, else a literal of length `-offset`. */
  datatype Format = Format(name: string, offset: int)

  /** The offset of the field that a letter stands for; 0 for other characters. */
  function Offset(c: char): int {
    match c
    case 'L' => 22640 case 'N' => 22648 case 'F' => 22656 case 'f' => 22664 case 'M' => 22672
    case 'l' => 22680 case 'T' => 22688 case 'P' => 22696 case 't' => 22704 case 'p' => 22712
    case _ => 0
  }

  /** The sizes of the buffers that open `log_data_t`, and the names of the pointers behind them, in their order. */
  const BUFFERS: nat := 16 + 32 + 16 + 16 + 32 + 10 * 1024 + 12 * 1024

  const POINTERS: seq<string> :=
    ["level", "name", "file", "function", "msg", "line", "time", "pid", "tid", "ptid", "log"]

  /** The documented letters: what each prints. */
  function FieldOf(c: char): string {
    match c
    case 'L' => "level" case 'N' => "name" case 'T' => "time" case 'F' => "file" case 'f' => "function"
    case 'l' => "line" case 'P' => "pid" case 't' => "tid" case 'p' => "ptid" case 'M' => "msg"
    case _ => ""
  }

  /** A letter that has a field has the offset of the pointer of that name. */
  lemma {:induction false} OffsetIsField(c: char) returns (k: nat)
    ensures Offset(c) > 0 <==> FieldOf(c) != ""
    ensures Offset(c) > 0 ==> k < |POINTERS| && POINTERS[k] == FieldOf(c) && Offset(c) == BUFFERS + 8 * k
  {
    k := if Offset(c) > 0 then (Offset(c) - BUFFERS) / 8 else 0;
  }

  /** Different letters print different fields. */
  lemma {:induction false} OffsetsDiffer(c: char, d: char)
    requires c != d && Offset(c) > 0
    ensures Offset(c) != Offset(d)
  {
  }

  /** `GetData`: the entry for a name. */
  function GetData(name: string): Format {
    if |name| == 2 && name[0] == '%' && Offset(name[1]) > 0 then Format(name, Offset(name[1]))
    else Format(name, -(|name| as int))
  }

  //////////////////////////////////////////////////////////////////////////////
  // What a format means
  //////////////////////////////////////////////////////////////////////////////

  /** The expansion from left to right; `data` gives the string at an offset. */
  function Meaning(format: string, data: int -> string): string {
    if format == "" then ""
    else if format[0] != '%' then [format[0]] + Meaning(format[1..], data)
    else if |format| == 1 then "%"
    else if format[1] == '%' then "%" + Meaning(format[2..], data)
    else if Offset(format[1]) > 0 then data(Offset(format[1])) + Meaning(format[2..], data)
    else format[..2] + Meaning(format[2..], data)
  }

  /** A format with every kind of item. */
  lemma {:induction false} MeaningExample(data: int -> string)
    ensures Meaning("a%L%%x%q%", data) == "a" + data(22640) + "%x%q%"
  {
    var f := "a%L%%x%q%";
    assert f[1..] == "%L%%x%q%" && f[1..][2..] == "%%x%q%" && f[1..][2..][2..] == "x%q%";
    assert "x%q%"[1..] == "%q%" && "%q%"[2..] == "%" && "%q%"[..2] == "%q";
    assert Meaning("%", data) == "%";
    assert Meaning("%q%", data) == "%q" + "%";
    assert Meaning("x%q%", data) == "x" + ("%q" + "%");
    assert Meaning("%%x%q%", data) == "%" + ("x" + ("%q" + "%"));
    assert Meaning("%L%%x%q%", data) == data(22640) + ("%" + ("x" + ("%q" + "%")));
    assert "%" + ("x" + ("%q" + "%")) == "%x%q%";
  }

  /** The text of one entry and of a list of entries. */
  function Text(f: Format, data: int -> string): string {
    if f.offset > 0 then data(f.offset) else f.name
  }

  function Rendered(fs: seq<Format>, data: int -> string): string {
    if fs == [] then "" else Text(fs[0], data) + Rendered(fs[1..], data)
  }

  //////////////////////////////////////////////////////////////////////////////
  // Splitting
  //////////////////////////////////////////////////////////////////////////////

  /** The parts between percent signs. */
  function Split(format: string): (r: seq<string>)
    ensures |r| > 0
  {
    if format == "" then [""]
    else if format[0] == '%' then [""] + Split(format[1..])
    else var rest := Split(format[1..]); [[format[0]] + rest[0]] + rest[1..]
  }

  function Joined(parts: seq<string>): string {
    if parts == [] then "" else "%" + parts[0] + Joined(parts[1..])
  }

  ghost predicate Plain(parts: seq<string>) {
    forall i :: 0 <= i < |parts| ==> '%' !in parts[i]
  }

  /** The parts joined with percent signs between them. */
  function Rejoined(parts: seq<string>): string
    requires parts != []
  {
    parts[0] + Joined(parts[1..])
  }

  lemma {:induction false} SplitJoins(format: string)
    ensures Plain(Split(format)) && Rejoined(Split(format)) == format
  {
    if format != "" {
      SplitJoins(format[1..]);
      var rest := Split(format[1..]);
      assert format == [format[0]] + format[1..];
      if format[0] == '%' {
        PercentFirst(rest, [""] + rest);
      } else {
        LetterFirst(format[0], rest, [[format[0]] + rest[0]] + rest[1..]);
      }
    }
  }

  lemma {:induction false} PercentFirst(rest: seq<string>, parts: seq<string>)
    requires rest != [] && Plain(rest) && parts == [""] + rest
    ensures Plain(parts) && Rejoined(parts) == "%" + Rejoined(rest)
  {
    assert parts[1..] == rest;
    assert Joined(rest) == "%" + rest[0] + Joined(rest[1..]);
  }

  lemma {:induction false} LetterFirst(c: char, rest: seq<string>, parts: seq<string>)
    requires c != '%' && rest != [] && Plain(rest) && parts == [[c] + rest[0]] + rest[1..]
    ensures Plain(parts) && Rejoined(parts) == [c] + Rejoined(rest)
  {
    assert parts[1..] == rest[1..];
    assert '%' !in parts[0];
  }

  //////////////////////////////////////////////////////////////////////////////
  // The list of entries
  //////////////////////////////////////////////////////////////////////////////

  /** The entries of the parts after the first: an empty part is a percent sign and takes the next part with it. */
  function Entries(parts: seq<string>): seq<Format> {
    if parts == [] then []
    else if parts[0] == "" then
      if |parts| == 1 then [GetData("%")] else [GetData("%"), GetData(parts[1])] + Entries(parts[2..])
    else [GetData("%" + parts[0][..1]), GetData(parts[0][1..])] + Entries(parts[1..])
  }

  lemma {:induction false} MeaningLiteral(u: string, rest: string, data: int -> string)
    requires '%' !in u
    ensures Meaning(u + rest, data) == u + Meaning(rest, data)
  {
    if u == "" {
      assert u + rest == rest;
    } else {
      MeaningLiteral(u[1..], rest, data);
      assert (u + rest)[1..] == u[1..] + rest;
    }
  }

  lemma {:induction false} PlainText(u: string, data: int -> string)
    requires '%' !in u
    ensures Text(GetData(u), data) == u && GetData(u).offset <= 0
  {
  }

  lemma {:induction false} RenderedTwo(a: Format, b: Format, rest: seq<Format>, data: int -> string)
    ensures Rendered([a, b] + rest, data) == Text(a, data) + Text(b, data) + Rendered(rest, data)
  {
    var fs := [a, b] + rest;
    assert fs[1..] == [b] + rest;
    assert ([b] + rest)[1..] == rest;
  }

  /** The entries mean what the format means. */
  lemma {:induction false} EntriesMean(parts: seq<string>, data: int -> string)
    requires Plain(parts)
    ensures Rendered(Entries(parts), data) == Meaning(Joined(parts), data)
    decreases |parts|
  {
    if parts == [] {
    } else if parts[0] == "" {
      if |parts| == 1 {
        LonePercent(parts, data);
      } else {
        EntriesMean(parts[2..], data);
        PlainText(parts[1], data);
        RenderedTwo(GetData("%"), GetData(parts[1]), Entries(parts[2..]), data);
        MeaningLiteral(parts[1], Joined(parts[2..]), data);
        TwoPercents(parts, data);
      }
    } else {
      EntriesMean(parts[1..], data);
      PlainText(parts[0][1..], data);
      RenderedTwo(GetData("%" + parts[0][..1]), GetData(parts[0][1..]), Entries(parts[1..]), data);
      MeaningLiteral(parts[0][1..], Joined(parts[1..]), data);
      PercentLetter(parts[0], Joined(parts[1..]), data);
    }
  }

  lemma {:induction false} LonePercent(parts: seq<string>, data: int -> string)
    requires parts == [""]
    ensures Rendered(Entries(parts), data) == Meaning(Joined(parts), data)
  {
    assert parts[1..] == [];
    assert Joined(parts) == "%";
    assert Rendered([GetData("%")], data) == "%" + Rendered([], data);
  }

  lemma {:induction false} TwoPercents(parts: seq<string>, data: int -> string)
    requires |parts| > 1 && parts[0] == ""
    ensures Meaning(Joined(parts), data) == "%" + Meaning(parts[1] + Joined(parts[2..]), data)
  {
    var tail := parts[1] + Joined(parts[2..]);
    assert parts[1..][1..] == parts[2..];
    assert Joined(parts[1..]) == "%" + tail;
    assert Joined(parts) == "%" + ("%" + tail);
    assert Joined(parts)[2..] == tail;
  }

  lemma {:induction false} PercentLetter(part: string, rest: string, data: int -> string)
    requires part != "" && '%' !in part
    ensures Meaning("%" + part + rest, data) == Text(GetData("%" + part[..1]), data) + Meaning(part[1..] + rest, data)
  {
    var whole := "%" + part + rest;
    assert whole[2..] == part[1..] + rest;
    assert whole[1] == part[0] && whole[..2] == "%" + part[..1];
  }

  //////////////////////////////////////////////////////////////////////////////
  // The alternating table
  //////////////////////////////////////////////////////////////////////////////

  function Literal(text: string): Format {
    Format(text, -(|text| as int))
  }

  /** Literals between two fields are joined, `div` being the text since the last field. */
  function Alternate(entries: seq<Format>, div: string): seq<Format> {
    if entries == [] then [Literal(div)]
    else if entries[0].offset > 0 then [Literal(div), entries[0]] + Alternate(entries[1..], "")
    else Alternate(entries[1..], div + entries[0].name)
  }

  function FieldCount(entries: seq<Format>): nat {
    if entries == [] then 0 else (if entries[0].offset > 0 then 1 else 0) + FieldCount(entries[1..])
  }

  /** Literals at the even places with their lengths, fields at the odd ones, a literal at the end. */
  ghost predicate Alternates(table: seq<Format>) {
    && |table| % 2 == 1
    && (forall i :: 0 <= i < |table| && i % 2 == 0 ==> table[i] == Literal(table[i].name))
    && (forall i :: 0 <= i < |table| && i % 2 == 1 ==> table[i].offset > 0)
  }

  lemma {:induction false} AlternateAlternates(entries: seq<Format>, div: string)
    ensures Alternates(Alternate(entries, div)) && |Alternate(entries, div)| == 2 * FieldCount(entries) + 1
    decreases |entries|
  {
    if entries == [] {
    } else if entries[0].offset > 0 {
      AlternateAlternates(entries[1..], "");
      TwoMore(Literal(div), entries[0], Alternate(entries[1..], ""));
    } else {
      AlternateAlternates(entries[1..], div + entries[0].name);
    }
  }

  lemma {:induction false} TwoMore(a: Format, b: Format, table: seq<Format>)
    requires a == Literal(a.name) && b.offset > 0 && Alternates(table)
    ensures Alternates([a, b] + table)
  {
    var more := [a, b] + table;
    forall i | 0 <= i < |more|
      ensures i % 2 == 0 ==> more[i] == Literal(more[i].name)
      ensures i % 2 == 1 ==> more[i].offset > 0
    {
      if i >= 2 { assert more[i] == table[i - 2]; }
    }
  }

  lemma {:induction false} AlternateMeans(entries: seq<Format>, div: string, data: int -> string)
    ensures Rendered(Alternate(entries, div), data) == div + Rendered(entries, data)
    decreases |entries|
  {
    if entries == [] {
      assert Rendered([Literal(div)], data) == div + Rendered([], data);
    } else if entries[0].offset > 0 {
      AlternateMeans(entries[1..], "", data);
      RenderedTwo(Literal(div), entries[0], Alternate(entries[1..], ""), data);
    } else {
      AlternateMeans(entries[1..], div + entries[0].name, data);
    }
  }

  lemma {:induction false} EntriesBound(parts: seq<string>)
    requires Plain(parts)
    ensures |Entries(parts)| <= 2 * |parts| && FieldCount(Entries(parts)) <= |parts|
    decreases |parts|
  {
    if parts == [] {
    } else if parts[0] == "" {
      if |parts| == 1 {
        assert FieldCount([GetData("%")]) == FieldCount([]);
      } else {
        EntriesBound(parts[2..]);
        CountTwo(GetData("%"), GetData(parts[1]), Entries(parts[2..]));
      }
    } else {
      EntriesBound(parts[1..]);
      CountTwo(GetData("%" + parts[0][..1]), GetData(parts[0][1..]), Entries(parts[1..]));
    }
  }

  lemma {:induction false} CountTwo(a: Format, b: Format, rest: seq<Format>)
    ensures FieldCount([a, b] + rest) ==
      (if a.offset > 0 then 1 else 0) + (if b.offset > 0 then 1 else 0) + FieldCount(rest)
  {
    var fs := [a, b] + rest;
    assert fs[1..] == [b] + rest;
    assert ([b] + rest)[1..] == rest;
  }

  /** All entries of a format, and its table. */
  function AllEntries(parts: seq<string>): seq<Format>
    requires parts != []
  {
    [GetData(parts[0])] + Entries(parts[1..])
  }

  function Table(format: string): seq<Format> {
    Alternate(AllEntries(Split(format)), "")
  }

  /** The table alternates, fits its allocation, and renders to the meaning of the format. */
  lemma {:induction false} TableMeans(format: string, data: int -> string)
    ensures Alternates(Table(format)) && |Table(format)| <= 2 * |Split(format)| + 1
    ensures |AllEntries(Split(format))| <= 2 * |Split(format)| + 1
    ensures Rendered(Table(format), data) == Meaning(format, data)
  {
    var parts := Split(format);
    var entries := AllEntries(parts);
    SplitJoins(format);
    PlainText(parts[0], data);
    EntriesBound(parts[1..]);
    assert entries[1..] == Entries(parts[1..]);
    AlternateAlternates(entries, "");
    AlternateMeans(entries, "", data);
    EntriesMean(parts[1..], data);
    MeaningLiteral(parts[0], Joined(parts[1..]), data);
  }

  //////////////////////////////////////////////////////////////////////////////
  // Compiling
  //////////////////////////////////////////////////////////////////////////////

  /** Two entries, or one, joining the array. */
  lemma {:induction false} EntriesStep(parts: seq<string>, i: nat)
    requires i < |parts|
    ensures parts[i] == "" && i + 1 == |parts| ==> Entries(parts[i..]) == [GetData("%")]
    ensures parts[i] == "" && i + 1 < |parts| ==>
      Entries(parts[i..]) == [GetData("%"), GetData(parts[i + 1])] + Entries(parts[i + 2..])
    ensures parts[i] != "" ==>
      Entries(parts[i..]) == [GetData("%" + parts[i][..1]), GetData(parts[i][1..])] + Entries(parts[i + 1..])
  {
    var rest := parts[i..];
    assert rest[1..] == parts[i + 1..];
    assert |rest| > 1 ==> rest[2..] == parts[i + 2..] && rest[1] == parts[i + 1];
  }

  /** The first pass of `ParseFormat`, into the array it has allocated. */
  method InsertEntries(parts: seq<string>) returns (formats: array<Format>, count: nat)
    requires parts != [] && Plain(parts)
    ensures fresh(formats) && formats.Length == 2 * |parts| + 1
    ensures count <= formats.Length && formats[..count] == AllEntries(parts)
  {
    EntriesBound(parts[1..]);
    formats := new Format[2 * |parts| + 1](_ => Format("", 0));
    count := InsertItem(formats, 0, parts[0]);
    ghost var all := AllEntries(parts);
    var i := 1;
    while i < |parts|
      invariant 1 <= i <= |parts| && count <= 2 * i && fresh(formats)
      invariant all == formats[..count] + Entries(parts[i..])
    {
      count, i := InsertPart(formats, count, parts, i);
    }
    assert parts[i..] == [];
  }

  /** The entries of one part, or of an empty part and the next one. */
  method InsertPart(formats: array<Format>, start: nat, parts: seq<string>, first: nat) returns (count: nat, i: nat)
    requires first < |parts| && start + 2 <= formats.Length
    modifies formats
    ensures first < i <= |parts| && start <= count <= start + 2
    ensures formats[..count] + Entries(parts[i..]) == old(formats[..start]) + Entries(parts[first..])
  {
    EntriesStep(parts, first);
    count, i := start, first;
    if parts[i] == "" {
      count := InsertItem(formats, count, "%");
      i := i + 1;
      if i < |parts| {
        count := InsertItem(formats, count, parts[i]);
        i := i + 1;
      }
    } else {
      count := InsertItem(formats, count, "%" + parts[i][..1]);
      count := InsertItem(formats, count, parts[i][1..]);
      i := i + 1;
    }
  }

  method InsertItem(formats: array<Format>, count: nat, name: string) returns (next: nat)
    requires count < formats.Length
    modifies formats
    ensures next == count + 1 && formats[..next] == old(formats[..count]) + [GetData(name)]
  {
    formats[count] := GetData(name);
    return count + 1;
  }

  lemma {:induction false} AlternateStep(entries: seq<Format>, i: nat, div: string)
    requires i < |entries|
    ensures Alternate(entries[i..], div) ==
            if entries[i].offset > 0 then [Literal(div), entries[i]] + Alternate(entries[i + 1..], "")
            else Alternate(entries[i + 1..], div + entries[i].name)
  {
    assert entries[i..][1..] == entries[i + 1..];
  }

  /** The second pass, into an array of the same size. */
  method MakeAlternate(entries: seq<Format>, size: nat) returns (formats: array<Format>, count: nat)
    requires |Alternate(entries, "")| <= size
    ensures fresh(formats) && formats.Length == size
    ensures count <= size && formats[..count] == Alternate(entries, "")
  {
    formats := new Format[size](_ => Format("", 0));
    count := 0;
    var div := "";
    ghost var table := Alternate(entries, "");
    assert entries[0..] == entries;
    for i := 0 to |entries|
      invariant count + |Alternate(entries[i..], div)| == |table|
      invariant count <= formats.Length && table == formats[..count] + Alternate(entries[i..], div)
    {
      AlternateStep(entries, i, div);
      if entries[i].offset > 0 {
        formats[count], formats[count + 1] := Literal(div), entries[i];
        count := count + 2;
        div := "";
      } else {
        div := div + entries[i].name;
      }
    }
    assert entries[|entries|..] == [];
    formats[count] := Literal(div);
    count := count + 1;
  }

  method ParseFormat(format: string) returns (formats: array<Format>, count: nat)
    ensures fresh(formats) && formats.Length == 2 * |Split(format)| + 1
    ensures count <= formats.Length && formats[..count] == Table(format)
  {
    var parts := Split(format);
    SplitJoins(format);
    TableMeans(format, _ => "");
    var entries, n := InsertEntries(parts);
    formats, count := MakeAlternate(entries[..n], 2 * |parts| + 1);
  }

  //////////////////////////////////////////////////////////////////////////////
  // Rendering
  //////////////////////////////////////////////////////////////////////////////

  function Truncated(text: string, n: nat): string {
    if |text| <= n then text else text[..n]
  }

  /** Copies a string to the line as far as the limit allows. */
  method Append(line: array<char>, at: nat, limit: nat, text: string) returns (next: nat)
    requires at <= limit <= line.Length
    modifies line
    ensures at <= next <= limit && next == at + |Truncated(text, limit - at)|
    ensures line[..next] == old(line[..at]) + Truncated(text, limit - at)
    ensures line[limit..] == old(line[limit..])
  {
    var n := if |text| < limit - at then |text| else limit - at;
    for i := 0 to n
      invariant line[..at + i] == old(line[..at]) + text[..i]
      invariant line[limit..] == old(line[limit..])
    {
      line[at + i] := text[i];
      assert line[..at + i + 1] == line[..at + i] + [text[i]];
    }
    next := at + n;
  }

  lemma {:induction false} TruncatedAppend(done: string, text: string, limit: nat)
    ensures |Truncated(done, limit)| <= limit
    ensures Truncated(done, limit) + Truncated(text, limit - |Truncated(done, limit)|) == Truncated(done + text, limit)
  {
  }

  lemma {:induction false} RenderedStep(fs: seq<Format>, i: nat, data: int -> string)
    requires i < |fs|
    ensures Rendered(fs[i..], data) == Text(fs[i], data) + Rendered(fs[i + 1..], data)
  {
    assert fs[i..][1..] == fs[i + 1..];
  }

  /** One entry after the other, as far as the limit allows. */
  method AppendEntry(line: array<char>, at: nat, limit: nat, f: Format, data: int -> string, ghost done: string)
    returns (next: nat)
    requires at <= limit <= line.Length && line[..at] == Truncated(done, limit)
    modifies line
    ensures next <= limit && line[..next] == Truncated(done + Text(f, data), limit)
    ensures line[limit..] == old(line[limit..])
  {
    TruncatedAppend(done, Text(f, data), limit);
    next := Append(line, at, limit, Text(f, data));
  }

  /** A literal and the field after it. */
  method AppendPair(line: array<char>, start: nat, limit: nat, f: Format, g: Format, data: int -> string,
                    ghost done: string)
    returns (at: nat)
    requires start <= limit <= line.Length && line[..start] == Truncated(done, limit)
    modifies line
    ensures at <= limit && line[..at] == Truncated(done + (Text(f, data) + Text(g, data)), limit)
    ensures line[limit..] == old(line[limit..])
  {
    at := AppendEntry(line, start, limit, f, data, done);
    at := AppendEntry(line, at, limit, g, data, done + Text(f, data));
    assert done + Text(f, data) + Text(g, data) == done + (Text(f, data) + Text(g, data));
  }

  lemma {:induction false} RenderedPair(fs: seq<Format>, i: nat, data: int -> string, done: string, pair: string)
    requires i + 1 < |fs| && pair == Text(fs[i], data) + Text(fs[i + 1], data)
    ensures done + Rendered(fs[i..], data) == done + pair + Rendered(fs[i + 2..], data)
  {
    RenderedStep(fs, i, data);
    RenderedStep(fs, i + 1, data);
    assert Rendered(fs[i..], data) == pair + Rendered(fs[i + 2..], data);
  }

  /** The line: the text of the table as far as it fits, a newline, and the end of the string. */
  ghost predicate HoldsLine(line: array<char>, text: string)
    reads line
  {
    var cut := Truncated(text, 12286);
    line.Length == 12288 && line[..|cut| + 1] == cut + "\n" && line[|cut| + 1] == 0 as char
  }

  /** `GetLogData` up to the closing newline. */
  method AppendTable(line: array<char>, table: seq<Format>, data: int -> string) returns (at: nat)
    requires line.Length == MAX_LINE && |table| % 2 == 1
    modifies line
    ensures at <= MAX_LINE - 2 && line[..at] == Truncated(Rendered(table, data), MAX_LINE - 2)
    ensures line[MAX_LINE - 2..] == old(line[MAX_LINE - 2..])
  {
    var limit := MAX_LINE - 2;
    ghost var done := "";
    var i := 0;
    at := 0;
    assert table[0..] == table;
    while i + 1 < |table|
      invariant 0 <= i < |table| && i % 2 == 0
      invariant at <= limit && line[..at] == Truncated(done, limit) && line[limit..] == old(line[limit..])
      invariant Rendered(table, data) == done + Rendered(table[i..], data)
    {
      ghost var pair := Text(table[i], data) + Text(table[i + 1], data);
      RenderedPair(table, i, data, done, pair);
      at := AppendPair(line, at, limit, table[i], table[i + 1], data, done);
      done := done + pair;
      i := i + 2;
    }
    RenderedLast(table, data);
    at := AppendEntry(line, at, limit, table[i], data, done);
  }

  lemma {:induction false} RenderedLast(fs: seq<Format>, data: int -> string)
    requires fs != []
    ensures Rendered(fs[|fs| - 1..], data) == Text(fs[|fs| - 1], data)
  {
    RenderedStep(fs, |fs| - 1, data);
    assert fs[|fs|..] == [];
  }

  /** `GetLogData`: what a compiled format prints is what the format means, cut to the line limit. */
  method GetLogData(format: string, table: seq<Format>, data: int -> string) returns (line: array<char>)
    requires table == Table(format)
    ensures fresh(line) && HoldsLine(line, Meaning(format, data))
  {
    TableMeans(format, data);
    line := new char[MAX_LINE](_ => ' ');
    line[MAX_LINE - 2] := '\n';
    line[MAX_LINE - 1] := 0 as char;
    var at := AppendTable(line, table, data);
    if at < MAX_LINE - 2 {
      line[at] := '\n';
      line[at + 1] := 0 as char;
    } else {
      assert line[MAX_LINE - 2..][0] == '\n' && line[MAX_LINE - 2..][1] == 0 as char;
    }
    assert line[..at + 1] == line[..at] + "\n";
  }
}
