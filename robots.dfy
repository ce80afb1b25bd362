/**
 * The robots.txt reading of `GovernmentScraper.parseRobotsTxt`: the body is
 * cut into trimmed lines, `User-agent:` lines open a section that is relevant
 * to this crawler or not, a relevant `Disallow:` line whose path is `/` or
 * occurs anywhere in the target URL stops the scan with "disallowed", and a
 * relevant `Crawl-delay:` line may raise the government delay.
 */
module Robots {
  import opened Wrappers
  import opened Text

  const AgentPrefix := "User-agent:"
  const DisallowPrefix := "Disallow:"
  const DelayPrefix := "Crawl-delay:"

  /** The lower-cased agent name this crawler answers to. */
  const OwnAgent := "civicspherebot"

  /** `robotsText.split('\n').map(line => line.trim())` */
  function Lines(text: string): seq<string> {
    var parts := Split(text, '\n');
    seq(|parts|, i requires 0 <= i < |parts| => Trim(parts[i]))
  }

  /** `line.split(':')[1].trim()`: only the text between the first and the
      second colon survives, so `Disallow: http://x/` yields `http`. */
  function FieldValue(line: string): string
    requires ':' in line
  {
    Trim(Split(line, ':')[1])
  }

  /** What a trimmed line says, tested in the order of the source's
      `if … else if …` chain. */
  datatype Directive = UserAgent(agent: string) | Disallow(path: string) | CrawlDelay(value: string) | Other

  function Classify(line: string): Directive {
    if StartsWith(line, AgentPrefix) then
      assert line[10] == AgentPrefix[10];
      UserAgent(Lower(FieldValue(line)))
    else if StartsWith(line, DisallowPrefix) then
      assert line[8] == DisallowPrefix[8];
      Disallow(FieldValue(line))
    else if StartsWith(line, DelayPrefix) then
      assert line[11] == DelayPrefix[11];
      CrawlDelay(FieldValue(line))
    else Other
  }

  /** A section applies to this crawler when its agent is `*`, its own name,
      or any name containing `bot`. */
  predicate IsRelevantAgent(agent: string) {
    agent == "*" || agent == OwnAgent || Contains(agent, "bot")
  }

  /** A `Disallow` path blocks the target when it is `/` or a substring of the
      whole URL; the empty path is a substring of every URL. */
  predicate Blocks(path: string, url: string) {
    path == "/" || Contains(url, path)
  }

  // ---------------------------------------------------------------------
  // `parseInt(value)` with no radix argument

  predicate IsDecimalDigit(c: char) {
    '0' <= c <= '9'
  }

  predicate IsDigitIn(c: char, radix: nat) {
    IsDecimalDigit(c) || (radix == 16 && (('a' <= c <= 'f') || ('A' <= c <= 'F')))
  }

  function DigitValue(c: char): nat {
    if IsDecimalDigit(c) then c as int - '0' as int
    else if 'a' <= c <= 'f' then c as int - 'a' as int + 10
    else if 'A' <= c <= 'F' then c as int - 'A' as int + 10
    else 0
  }

  /** Length of the longest prefix of `s` made of digits of `radix`. */
  function DigitRun(s: string, radix: nat): (n: nat)
    ensures n <= |s|
    ensures forall i :: 0 <= i < n ==> IsDigitIn(s[i], radix)
    ensures n < |s| ==> !IsDigitIn(s[n], radix)
  {
    if s != [] && IsDigitIn(s[0], radix) then 1 + DigitRun(s[1..], radix) else 0
  }

  /** The number written by the digits `s`, most significant first. */
  function Value(s: string, radix: nat): nat {
    if s == [] then 0 else Value(s[..|s| - 1], radix) * radix + DigitValue(s[|s| - 1])
  }

  /** `parseInt(s)`: leading white space and one sign are skipped, a `0x` or
      `0X` prefix selects base 16, and the longest run of digits is read;
      with no digit the result is `NaN`, here `None`. */
  function ParseInt(s: string): Option<int> {
    var t := TrimStart(s);
    var negative := t != [] && t[0] == '-';
    var u := if t != [] && (t[0] == '-' || t[0] == '+') then t[1..] else t;
    var hex := StartsWith(u, "0x") || StartsWith(u, "0X");
    var radix := if hex then 16 else 10;
    var w := if hex then u[2..] else u;
    var n := DigitRun(w, radix);
    var magnitude: int := Value(w[..n], radix);
    if n == 0 then None else Some(if negative then -magnitude else magnitude)
  }

  /** A string of decimal digits reads as its value. */
  lemma DecimalParses(s: string)
    requires s != [] && forall i :: 0 <= i < |s| ==> IsDecimalDigit(s[i])
    ensures ParseInt(s) == Some(Value(s, 10))
  {
    DigitsUntrimmed(s);
    DigitsNotHex(s);
    DecimalRun(s);
    assert s[..|s|] == s;
  }

  /** A digit is not white space, so nothing is trimmed. */
  lemma DigitsUntrimmed(s: string)
    requires s != [] && forall i :: 0 <= i < |s| ==> IsDecimalDigit(s[i])
    ensures TrimStart(s) == s
  {
    assert IsDecimalDigit(s[0]);
    assert !IsSpace(s[0]);
  }

  /** A string of decimal digits has no sign and no `0x` prefix. */
  lemma DigitsNotHex(s: string)
    requires s != [] && forall i :: 0 <= i < |s| ==> IsDecimalDigit(s[i])
    ensures s[0] != '-' && s[0] != '+'
    ensures !StartsWith(s, "0x") && !StartsWith(s, "0X")
  {
    assert IsDecimalDigit(s[0]);
    if |s| >= 2 {
      assert IsDecimalDigit(s[1]);
    }
  }

  lemma {:induction false} DecimalRun(s: string)
    requires forall i :: 0 <= i < |s| ==> IsDecimalDigit(s[i])
    ensures DigitRun(s, 10) == |s|
  {
    if s != [] {
      assert forall i :: 0 <= i < |s[1..]| ==> IsDecimalDigit(s[1..][i]) by {
        forall i | 0 <= i < |s[1..]| ensures IsDecimalDigit(s[1..][i]) {
          assert s[1..][i] == s[i + 1];
        }
      }
      DecimalRun(s[1..]);
    }
  }

  /** `parseInt(value) * 1000`: a `Crawl-delay` in seconds as milliseconds. */
  function DelayMs(value: string): Option<int> {
    match ParseInt(value)
    case Some(seconds) => Some(seconds * 1000)
    case None => None
  }

  /** The government delay after a relevant `Crawl-delay` line: raised when the
      value is a larger number, kept otherwise (`NaN > d` is false). */
  function Raise(delayMs: int, value: string): (r: int)
    ensures r >= delayMs
    ensures r == delayMs || DelayMs(value) == Some(r)
  {
    match DelayMs(value)
    case Some(ms) => if ms > delayMs then ms else delayMs
    case None => delayMs
  }

  // ---------------------------------------------------------------------
  // The scan

  datatype Verdict = Verdict(allowed: bool, delayMs: int)

  /** Whether the section is relevant after reading `line`: only a
      `User-agent:` line changes it. */
  function NextRelevance(relevant: bool, line: string): bool {
    match Classify(line)
    case UserAgent(agent) => IsRelevantAgent(agent)
    case _ => relevant
  }

  /** The government delay after reading `line`. */
  function NextDelay(relevant: bool, delayMs: int, line: string): int {
    match Classify(line)
    case CrawlDelay(value) => if relevant then Raise(delayMs, value) else delayMs
    case _ => delayMs
  }

  /** `line` is a `Disallow` line whose path blocks `url`. */
  predicate IsBlocking(line: string, url: string) {
    Classify(line).Disallow? && Blocks(Classify(line).path, url)
  }

  /** The scan of `lines` from a state in which the current section is
      (`relevant`) or is not relevant and the government delay is `delayMs`;
      it stops at the first blocking `Disallow` line of a relevant section. */
  function Scan(lines: seq<string>, url: string, relevant: bool, delayMs: int): Verdict
    decreases |lines|
  {
    if lines == [] then Verdict(true, delayMs)
    else if relevant && IsBlocking(lines[0], url) then Verdict(false, delayMs)
    else Scan(lines[1..], url, NextRelevance(relevant, lines[0]), NextDelay(relevant, delayMs, lines[0]))
  }

  /** The scan from line `i` on takes one step over line `i`. */
  lemma ScanFrom(lines: seq<string>, i: int, url: string, relevant: bool, delayMs: int)
    requires 0 <= i < |lines|
    ensures Scan(lines[i..], url, relevant, delayMs)
            == if relevant && IsBlocking(lines[i], url) then Verdict(false, delayMs)
               else Scan(lines[i + 1..], url, NextRelevance(relevant, lines[i]), NextDelay(relevant, delayMs, lines[i]))
  {
    assert lines[i..][0] == lines[i];
    assert lines[i..][1..] == lines[i + 1..];
  }

  /** One step of the scan by the kind of line: only a `User-agent:` line
      changes the relevance, only a relevant `Crawl-delay:` line the delay,
      and only a `Disallow:` line can block. */
  lemma StepByDirective(line: string, url: string, relevant: bool, delayMs: int)
    ensures match Classify(line)
            case UserAgent(agent) =>
              NextRelevance(relevant, line) == IsRelevantAgent(agent)
              && NextDelay(relevant, delayMs, line) == delayMs && !IsBlocking(line, url)
            case Disallow(path) =>
              NextRelevance(relevant, line) == relevant && NextDelay(relevant, delayMs, line) == delayMs
              && (IsBlocking(line, url) <==> Blocks(path, url))
            case CrawlDelay(value) =>
              NextRelevance(relevant, line) == relevant && !IsBlocking(line, url)
              && NextDelay(relevant, delayMs, line) == (if relevant then Raise(delayMs, value) else delayMs)
            case Other =>
              NextRelevance(relevant, line) == relevant
              && NextDelay(relevant, delayMs, line) == delayMs && !IsBlocking(line, url)
  {
  }

  /** The raised delay is the larger of the old one and a value that reads
      as a number. */
  lemma RaiseIs(delayMs: int, value: string)
    ensures Raise(delayMs, value)
            == if DelayMs(value).Some? && DelayMs(value).value > delayMs then DelayMs(value).value else delayMs
  {
  }

  /** What `parseRobotsTxt(text, url)` answers and the government delay it
      leaves, starting outside any section. */
  function RobotsVerdict(text: string, url: string, delayMs: int): Verdict {
    Scan(Lines(text), url, false, delayMs)
  }

  /** Whether the section in force after `lines` is relevant. */
  function RelevanceAfter(relevant: bool, lines: seq<string>): bool
    decreases |lines|
  {
    if lines == [] then relevant else RelevanceAfter(NextRelevance(relevant, lines[0]), lines[1..])
  }

  /** Line `k` is a `Disallow` line inside a relevant section that blocks `url`. */
  predicate BlocksAt(lines: seq<string>, url: string, relevant: bool, k: int) {
    0 <= k < |lines| && RelevanceAfter(relevant, lines[..k]) && IsBlocking(lines[k], url)
  }

  /** Line `k` is a `Crawl-delay` line inside a relevant section whose value
      reads as `ms` milliseconds. */
  predicate DelayAt(lines: seq<string>, relevant: bool, k: int, ms: int) {
    0 <= k < |lines| && RelevanceAfter(relevant, lines[..k])
    && Classify(lines[k]).CrawlDelay? && DelayMs(Classify(lines[k]).value) == Some(ms)
  }

  /** Stepping over the first line moves every later position one down. */
  lemma ShiftRelevance(lines: seq<string>, relevant: bool, k: nat)
    requires 0 < k <= |lines|
    ensures RelevanceAfter(relevant, lines[..k])
         == RelevanceAfter(NextRelevance(relevant, lines[0]), lines[1..][..k - 1])
  {
    assert lines[..k][1..] == lines[1..][..k - 1];
  }

  /** The scan says "disallowed" exactly when some relevant `Disallow` line
      blocks the URL: no other line stops the scan, so the first such line is
      always reached. */
  lemma {:induction false} ScanBlockedIff(lines: seq<string>, url: string, relevant: bool, delayMs: int)
    ensures !Scan(lines, url, relevant, delayMs).allowed <==> exists k :: BlocksAt(lines, url, relevant, k)
    decreases |lines|
  {
    if lines != [] {
      assert lines[..0] == [];
      if relevant && IsBlocking(lines[0], url) {
        assert BlocksAt(lines, url, relevant, 0);
      } else {
        var next := NextRelevance(relevant, lines[0]);
        var d' := NextDelay(relevant, delayMs, lines[0]);
        ScanBlockedIff(lines[1..], url, next, d');
        forall k | BlocksAt(lines, url, relevant, k)
          ensures BlocksAt(lines[1..], url, next, k - 1)
        {
          ShiftRelevance(lines, relevant, k);
        }
        if exists k :: BlocksAt(lines[1..], url, next, k) {
          var k :| BlocksAt(lines[1..], url, next, k);
          ShiftRelevance(lines, relevant, k + 1);
          assert BlocksAt(lines, url, relevant, k + 1);
        }
      }
    }
  }

  /** A `Crawl-delay` line can only raise the delay, never lower it. */
  lemma {:induction false} ScanDelayNeverLowers(lines: seq<string>, url: string, relevant: bool, delayMs: int)
    ensures Scan(lines, url, relevant, delayMs).delayMs >= delayMs
    decreases |lines|
  {
    if lines != [] && !(relevant && IsBlocking(lines[0], url)) {
      ScanDelayNeverLowers(lines[1..], url, NextRelevance(relevant, lines[0]), NextDelay(relevant, delayMs, lines[0]));
    }
  }

  /** A line that changes the delay is a relevant `Crawl-delay` line giving it. */
  lemma NextDelayChanged(relevant: bool, delayMs: int, line: string)
    requires NextDelay(relevant, delayMs, line) != delayMs
    ensures relevant && Classify(line).CrawlDelay?
    ensures DelayMs(Classify(line).value) == Some(NextDelay(relevant, delayMs, line))
  {
  }

  /** A changed delay is the value of some relevant `Crawl-delay` line. */
  lemma {:induction false} ScanDelayFromDirective(lines: seq<string>, url: string, relevant: bool, delayMs: int)
    ensures var v := Scan(lines, url, relevant, delayMs);
            v.delayMs == delayMs || exists k :: DelayAt(lines, relevant, k, v.delayMs)
    decreases |lines|
  {
    if lines != [] && !(relevant && IsBlocking(lines[0], url)) {
      var next := NextRelevance(relevant, lines[0]);
      var d' := NextDelay(relevant, delayMs, lines[0]);
      ScanDelayFromDirective(lines[1..], url, next, d');
      var v := Scan(lines[1..], url, next, d');
      assert Scan(lines, url, relevant, delayMs) == v;
      if v.delayMs == delayMs {
      } else if v.delayMs != d' {
        var k :| DelayAt(lines[1..], next, k, v.delayMs);
        ShiftRelevance(lines, relevant, k + 1);
        assert DelayAt(lines, relevant, k + 1, v.delayMs);
      } else {
        NextDelayChanged(relevant, delayMs, lines[0]);
        assert lines[..0] == [];
        assert DelayAt(lines, relevant, 0, v.delayMs);
      }
    }
  }

  /** When the scan reaches the end, the delay is at least every relevant
      `Crawl-delay` value it passed. */
  lemma {:induction false} ScanDelayCoversDirectives(lines: seq<string>, url: string, relevant: bool, delayMs: int, k: int, ms: int)
    requires Scan(lines, url, relevant, delayMs).allowed
    requires DelayAt(lines, relevant, k, ms)
    ensures Scan(lines, url, relevant, delayMs).delayMs >= ms
    decreases |lines|
  {
    var next := NextRelevance(relevant, lines[0]);
    var d' := NextDelay(relevant, delayMs, lines[0]);
    assert Scan(lines, url, relevant, delayMs) == Scan(lines[1..], url, next, d');
    if k == 0 {
      assert lines[..0] == [];
      ScanDelayNeverLowers(lines[1..], url, next, d');
    } else {
      ShiftRelevance(lines, relevant, k);
      ScanDelayCoversDirectives(lines[1..], url, next, d', k - 1, ms);
    }
  }

  /** Any relevant `Disallow` line with an empty path forbids every URL, since
      the empty path occurs in every string; the robots exclusion protocol
      (RFC 9309, section 2.2.2) reads an empty rule as allowing everything. */
  lemma EmptyDisallowBlocksAll(lines: seq<string>, url: string, relevant: bool, delayMs: int, k: int)
    requires 0 <= k < |lines| && RelevanceAfter(relevant, lines[..k])
    requires Classify(lines[k]) == Disallow("")
    ensures !Scan(lines, url, relevant, delayMs).allowed
  {
    ContainsEmpty(url);
    assert BlocksAt(lines, url, relevant, k);
    ScanBlockedIff(lines, url, relevant, delayMs);
  }

  /** Any relevant `Disallow: /` line forbids every URL. */
  lemma RootDisallowBlocksAll(lines: seq<string>, url: string, relevant: bool, delayMs: int, k: int)
    requires 0 <= k < |lines| && RelevanceAfter(relevant, lines[..k])
    requires Classify(lines[k]) == Disallow("/")
    ensures !Scan(lines, url, relevant, delayMs).allowed
  {
    assert BlocksAt(lines, url, relevant, k);
    ScanBlockedIff(lines, url, relevant, delayMs);
  }
}
