/**
 From a package agent's console output to metrics: keep the lines with the "> " prefix, parse what
 is left (agents/agents.go and agents/pkgagent.go).
 */
module Console {
  import opened Prelude
  import opened LineMetrics
  import opened LineRoundTrip
  import opened LineParser
  import LineLexer

  /** The longest line, without its newline, that fits bufio.Scanner's buffer. */
  const MAX_LINE_BYTES := 65535

  function Bytes(s: string): nat {
    if s == "" then 0
    else
      (if s[0] as int < 0x80 then 1 else if s[0] as int < 0x800 then 2 else if s[0] as int < 0x1_0000 then 3 else 4)
      + Bytes(s[1..])
  }

  function From(s: string, code: nat): nat {
    if s == "" then 0 else (if s[0] as int >= code then 1 else 0) + From(s[1..], code)
  }

  /** The length in bytes is that of UTF-8: one more from U+0080, from U+0800 and from U+10000 on. */
  lemma {:induction false} BytesExact(s: string)
    ensures Bytes(s) == |s| + From(s, 128) + From(s, 2048) + From(s, 65536)
  {
    if s != "" {
      BytesExact(s[1..]);
    }
  }

  function LineEnd(s: string): (n: nat)
    ensures n <= |s| && (n < |s| ==> s[n] == '\n')
    ensures forall i | 0 <= i < n :: s[i] != '\n'
  {
    if s == "" || s[0] == '\n' then 0 else 1 + LineEnd(s[1..])
  }

  function DropReturn(s: string): string {
    if s != "" && s[|s| - 1] == '\r' then s[..|s| - 1] else s
  }

  /** What the scanner yields: it stops for good at a line it cannot hold. */
  function ScanLines(s: string): seq<string> {
    if s == "" then []
    else
      var n := LineEnd(s);
      if Bytes(s[..n]) > MAX_LINE_BYTES then []
      else [DropReturn(s[..n])] + (if n < |s| then ScanLines(s[n + 1..]) else [])
  }

  function Kept(lines: seq<string>, keep: string -> bool): string {
    if lines == [] then ""
    else (if keep(lines[0]) then lines[0] + "\n" else "") + Kept(lines[1..], keep)
  }

  lemma KeptCons(line: string, more: seq<string>, keep: string -> bool)
    ensures Kept([line] + more, keep) == (if keep(line) then line + "\n" else "") + Kept(more, keep)
  {
    assert ([line] + more)[1..] == more;
  }

  function AfterLine(s: string): string
    requires s != ""
  {
    if LineEnd(s) < |s| then s[LineEnd(s) + 1..] else ""
  }

  lemma KeptLine(s: string, keep: string -> bool)
    requires s != "" && Bytes(s[..LineEnd(s)]) <= MAX_LINE_BYTES
    ensures var line := DropReturn(s[..LineEnd(s)]);
            Kept(ScanLines(s), keep) == (if keep(line) then line + "\n" else "") + Kept(ScanLines(AfterLine(s)), keep)
  {
    KeptCons(DropReturn(s[..LineEnd(s)]), ScanLines(AfterLine(s)), keep);
  }

  /** filterLines: the kept lines, each with a newline, in their order. */
  method FilterLines(content: string, keep: string -> bool) returns (out: string)
    ensures out == Kept(ScanLines(content), keep)
  {
    out := "";
    var rest := content;
    while rest != ""
      invariant out + Kept(ScanLines(rest), keep) == Kept(ScanLines(content), keep)
      decreases |rest|
    {
      var n := LineEnd(rest);
      if Bytes(rest[..n]) > MAX_LINE_BYTES {
        assert out + "" == out;
        return;
      }
      KeptLine(rest, keep);
      var line := DropReturn(rest[..n]);
      var after := if n < |rest| then rest[n + 1..] else "";
      if keep(line) {
        Assoc(out, line + "\n", Kept(ScanLines(after), keep));
        out := out + (line + "\n");
      } else {
        assert "" + Kept(ScanLines(after), keep) == Kept(ScanLines(after), keep);
      }
      rest := after;
    }
    assert out + "" == out;
  }

  predicate IsReport(line: string) {
    |line| >= 2 && line[..2] == "> "
  }

  lemma ReportExactlyWhen(line: string)
    ensures IsReport(line) <==> exists rest :: line == "> " + rest
  {
    if IsReport(line) {
      assert line == "> " + line[2..];
    }
  }

  /** The part of ProcessTestMonitor after the command has run. */
  method ReportMetrics(output: string) returns (metrics: Option<seq<Metric>>)
    ensures metrics.Some? <==> ParseRecords(Kept(ScanLines(output), IsReport)).Some?
    ensures metrics.Some? ==>
              var records := ParseRecords(Kept(ScanLines(output), IsReport)).value;
              && |metrics.value| == |records|
              && forall i | 0 <= i < |records| :: Converts(records[i], metrics.value[i])
  {
    var filtered := FilterLines(output, IsReport);
    metrics := ParseInfluxLineProtocolMetrics(filtered);
  }

  // ---------------------------------------------------------------- log lines do not matter

  /** A line of console output: something logged, or a metric. */
  datatype Item = Log(text: string) | Report(line: Source)

  function ItemText(item: Item): string {
    match item
    case Log(text) => text
    case Report(line) => PrintLine(line)
  }

  predicate Unbroken(s: string) {
    '\n' !in s && '\r' !in s && Bytes(s) < 65_536
  }

  /** With its newline, a line fits the scanner's buffer of 64 KiB. */
  ghost predicate ItemOk(item: Item, nl: string) {
    && Unbroken(ItemText(item)) && Bytes(ItemText(item)) + |nl| <= 65_536
    && match item
       case Log(text) => !(|text| >= 2 && text[0] == '>' && text[1] == ' ')
       case Report(line) => LineOk(line) && line.prefixed
  }

  predicate IsNewline(nl: string) {
    nl == "\n" || nl == "\r\n"
  }

  /** Each item on its line; the last newline may be missing. */
  function Output(items: seq<Item>, nl: string, final: bool): string {
    if items == [] then ""
    else ItemText(items[0]) + (if |items| == 1 && !final then "" else nl + Output(items[1..], nl, final))
  }

  function Reports(items: seq<Item>): seq<Source> {
    if items == [] then [] else (if items[0].Report? then [items[0].line] else []) + Reports(items[1..])
  }

  function ReportText(lines: seq<Source>): string {
    if lines == [] then "" else PrintLine(lines[0]) + "\n" + ReportText(lines[1..])
  }

  lemma PrintedReport(line: Source)
    requires line.prefixed
    ensures IsReport(PrintLine(line))
  {
    assert PrintLine(line)[..2] == "> ";
  }

  lemma {:induction false} FirstBreak(a: string, b: string)
    requires '\n' !in a && (b == "" || b[0] == '\n')
    ensures LineEnd(a + b) == |a|
  {
    if a == "" {
      assert a + b == b;
    } else {
      assert (a + b)[1..] == a[1..] + b;
      FirstBreak(a[1..], b);
    }
  }

  lemma ScanTerminated(t: string, b: string)
    requires '\n' !in t && Bytes(t) < 65_536
    ensures ScanLines(t + ("\n" + b)) == [DropReturn(t)] + ScanLines(b)
  {
    var s := t + ("\n" + b);
    FirstBreak(t, "\n" + b);
    assert s[..|t|] == t && s[|t| + 1..] == b;
  }

  lemma ScanFirst(a: string, b: string)
    requires Unbroken(a)
    ensures ScanLines(a + ("\n" + b)) == [a] + ScanLines(b)
    ensures a != "" ==> ScanLines(a) == [a]
  {
    assert a != "" ==> a[|a| - 1] in a;
    ScanTerminated(a, b);
    FirstBreak(a, "");
    assert a + "" == a && a[..|a|] == a;
  }

  lemma {:induction false} BytesReturn(a: string)
    ensures Bytes(a + "\r") == Bytes(a) + 1
  {
    if a == "" {
      assert a + "\r" == "\r";
    } else {
      assert (a + "\r")[1..] == a[1..] + "\r";
      BytesReturn(a[1..]);
    }
  }

  /** A carriage return before the newline counts towards the line's bytes and is then dropped. */
  lemma ScanReturn(a: string, b: string)
    requires Unbroken(a) && Bytes(a) <= 65_534
    ensures ScanLines(a + ("\r\n" + b)) == [a] + ScanLines(b)
  {
    var t := a + "\r";
    BytesReturn(a);
    assert a + ("\r\n" + b) == t + ("\n" + b);
    ScanTerminated(t, b);
    assert t[..|a|] == a;
  }

  lemma ScanItem(a: string, nl: string, b: string)
    requires IsNewline(nl) && Unbroken(a) && Bytes(a) + |nl| <= 65_536
    ensures ScanLines(a + (nl + b)) == [a] + ScanLines(b)
  {
    if nl == "\n" {
      ScanFirst(a, b);
    } else {
      ScanReturn(a, b);
    }
  }

  /** The scanner gives up at a line of 65536 bytes or more, and everything after it is lost. */
  lemma LongLineEndsScan(a: string, b: string)
    requires '\n' !in a && Bytes(a) >= 65_536
    ensures ScanLines(a + ("\n" + b)) == []
  {
    FirstBreak(a, "\n" + b);
    assert (a + ("\n" + b))[..|a|] == a;
  }

  lemma OneItem(item: Item, nl: string)
    requires ItemOk(item, nl)
    ensures Kept(ScanLines(ItemText(item)), IsReport) == if item.Report? then PrintLine(item.line) + "\n" else ""
  {
    var text := ItemText(item);
    ScanFirst(text, "");
    if item.Report? {
      PrintedReport(item.line);
    }
    if text != "" {
      assert [text] + [] == [text];
      KeptCons(text, [], IsReport);
    }
  }

  lemma KeepsItem(item: Item, nl: string, lines: seq<string>)
    requires ItemOk(item, nl)
    ensures Kept([ItemText(item)] + lines, IsReport)
         == (if item.Report? then PrintLine(item.line) + "\n" else "") + Kept(lines, IsReport)
  {
    if item.Report? {
      PrintedReport(item.line);
    }
    KeptCons(ItemText(item), lines, IsReport);
  }

  lemma MoreItems(item: Item, nl: string, rest: string)
    requires IsNewline(nl) && ItemOk(item, nl)
    ensures Kept(ScanLines(ItemText(item) + (nl + rest)), IsReport)
         == (if item.Report? then PrintLine(item.line) + "\n" else "") + Kept(ScanLines(rest), IsReport)
  {
    ScanItem(ItemText(item), nl, rest);
    KeepsItem(item, nl, ScanLines(rest));
  }

  lemma ReportTextCons(items: seq<Item>)
    requires items != []
    ensures ReportText(Reports(items))
         == (if items[0].Report? then PrintLine(items[0].line) + "\n" else "") + ReportText(Reports(items[1..]))
  {
    if items[0].Report? {
      assert Reports(items)[1..] == Reports(items[1..]);
    } else {
      assert Reports(items) == Reports(items[1..]);
      assert "" + ReportText(Reports(items[1..])) == ReportText(Reports(items[1..]));
    }
  }

  /** Filtering the console output leaves exactly the reports, each on its line. */
  lemma {:induction false} FilterKeepsReports(items: seq<Item>, nl: string, final: bool)
    requires IsNewline(nl) && forall item | item in items :: ItemOk(item, nl)
    ensures Kept(ScanLines(Output(items, nl, final)), IsReport) == ReportText(Reports(items))
  {
    if items != [] {
      assert items[0] in items;
      FilterKeepsReports(items[1..], nl, final);
      ReportTextCons(items);
      if |items| == 1 && !final {
        assert items[1..] == [];
        assert Output(items, nl, final) == ItemText(items[0]);
        OneItem(items[0], nl);
      } else {
        MoreItems(items[0], nl, Output(items[1..], nl, final));
      }
    }
  }

  function Lined(lines: seq<Source>): Sources
    requires lines != []
  {
    if |lines| == 1 then SLast(lines[0], Some("\n")) else SMore(lines[0], "\n", Lined(lines[1..]))
  }

  function DenoteAll(lines: seq<Source>): seq<Record> {
    if lines == [] then [] else [DenoteLine(lines[0])] + DenoteAll(lines[1..])
  }

  lemma {:induction false} LinedPrints(lines: seq<Source>)
    requires lines != []
    ensures Print(Lined(lines)) == ReportText(lines)
  {
    if |lines| == 1 {
      assert ReportText(lines[1..]) == "";
      assert PrintLine(lines[0]) + "\n" + "" == PrintLine(lines[0]) + "\n";
    } else {
      LinedPrints(lines[1..]);
      Assoc(PrintLine(lines[0]), "\n", ReportText(lines[1..]));
    }
  }

  lemma {:induction false} LinedOk(lines: seq<Source>)
    requires lines != [] && forall l | l in lines :: LineOk(l)
    ensures Ok(Lined(lines)) && Denote(Lined(lines)) == DenoteAll(lines)
  {
    assert lines[0] in lines;
    if |lines| == 1 {
      assert DenoteAll(lines[1..]) == [];
    } else {
      LinedOk(lines[1..]);
    }
  }

  lemma {:induction false} ReportsOk(items: seq<Item>, nl: string)
    requires forall item | item in items :: ItemOk(item, nl)
    ensures forall l | l in Reports(items) :: LineOk(l)
    ensures Reports(items) == [] <==> forall item | item in items :: item.Log?
  {
    if items != [] {
      assert items[0] in items;
      ReportsOk(items[1..], nl);
      assert forall item | item in items :: item == items[0] || item in items[1..];
      assert forall item | item in items[1..] :: item in items;
    }
  }

  /**
   For any mix of log lines and metric lines, filtering and parsing gives exactly one record per
   metric line, in order, whatever was logged; without any metric line it is the parser's error.
   */
  lemma ConsoleRoundTrip(items: seq<Item>, nl: string, final: bool)
    requires IsNewline(nl) && forall item | item in items :: ItemOk(item, nl)
    ensures ParseRecords(Kept(ScanLines(Output(items, nl, final)), IsReport)) ==
            if Reports(items) == [] then None else Some(DenoteAll(Reports(items)))
  {
    FilterKeepsReports(items, nl, final);
    ReportsOk(items, nl);
    var reports := Reports(items);
    if reports == [] {
      assert LineLexer.Lex("") == Some([]);
    } else {
      LinedPrints(reports);
      LinedOk(reports);
      RoundTrip(Lined(reports));
    }
  }
}
