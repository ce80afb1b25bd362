/**
 * The summaries and the reading time of a notification:
 * `generateFallbackSummary`, `calculateReadingTime`, and the per-minute limit
 * on requests to the AI model that `summarizeContent` applies before it
 * falls back.
 */
module Summary {
  import opened Text

  // ---------------------------------------------------------------------
  // `content.split(/[.!?]+/)`

  predicate IsTerminator(c: char) {
    c == '.' || c == '!' || c == '?'
  }

  /** `s` has no sentence terminator. */
  predicate Plain(s: string) {
    forall m :: 0 <= m < |s| ==> !IsTerminator(s[m])
  }

  /** Index of the first sentence terminator of `s`, or `|s|`. */
  function FirstTerminator(s: string): (k: nat)
    ensures k <= |s|
    ensures k < |s| ==> IsTerminator(s[k])
    ensures forall i :: 0 <= i < k ==> !IsTerminator(s[i])
  {
    if s == [] || IsTerminator(s[0]) then 0 else 1 + FirstTerminator(s[1..])
  }

  /** End of the run of terminators that starts at `k`. */
  function RunEnd(s: string, k: nat): (e: nat)
    requires k <= |s|
    ensures k <= e <= |s|
    ensures forall i :: k <= i < e ==> IsTerminator(s[i])
    ensures e < |s| ==> !IsTerminator(s[e])
    decreases |s| - k
  {
    if k < |s| && IsTerminator(s[k]) then RunEnd(s, k + 1) else k
  }

  /** The pieces between the maximal runs of `.`, `!` and `?`, including the
      empty pieces before a leading run and after a trailing one; the empty
      string splits into one empty piece. */
  function SplitRuns(s: string): (pieces: seq<string>)
    ensures |pieces| >= 1
    ensures forall i :: 0 <= i < |pieces| ==> Plain(pieces[i])
    ensures (|pieces| == 1) == Plain(s)
    decreases |s|
  {
    var k := FirstTerminator(s);
    if k == |s| then [s]
    else
      var rest := SplitRuns(s[RunEnd(s, k)..]);
      [s[..k]] + rest
  }

  /** `s` with its sentence terminators removed. */
  function Letters(s: string): string {
    if s == [] then [] else (if IsTerminator(s[0]) then [] else [s[0]]) + Letters(s[1..])
  }

  /** All the pieces, end to end. */
  function Concat(pieces: seq<string>): string {
    if pieces == [] then [] else pieces[0] + Concat(pieces[1..])
  }

  lemma {:induction false} LettersConcat(a: string, b: string)
    ensures Letters(a + b) == Letters(a) + Letters(b)
  {
    if a == [] {
      assert a + b == b;
    } else {
      assert (a + b)[1..] == a[1..] + b;
      LettersConcat(a[1..], b);
    }
  }

  lemma {:induction false} LettersOfPlain(s: string)
    requires Plain(s)
    ensures Letters(s) == s
  {
    if s != [] {
      LettersOfPlain(s[1..]);
    }
  }

  lemma {:induction false} LettersOfRun(s: string)
    requires forall m :: 0 <= m < |s| ==> IsTerminator(s[m])
    ensures Letters(s) == []
  {
    if s != [] {
      LettersOfRun(s[1..]);
    }
  }

  /** The split loses exactly the terminators: its pieces, end to end, are
      the content without its `.`, `!` and `?`. */
  lemma {:induction false} SplitRunsKeepsText(s: string)
    ensures Concat(SplitRuns(s)) == Letters(s)
    decreases |s|
  {
    var k := FirstTerminator(s);
    if k == |s| {
      LettersOfPlain(s);
      assert Concat([s]) == s + Concat([]);
    } else {
      var e := RunEnd(s, k);
      LettersAroundRun(s, k, e);
      ConcatAroundRun(s, k, e);
      SplitRunsKeepsText(s[e..]);
    }
  }

  /** Dropping the letters of the first run of terminators. */
  lemma LettersAroundRun(s: string, k: nat, e: nat)
    requires k == FirstTerminator(s) < |s| && e == RunEnd(s, k)
    ensures Letters(s) == s[..k] + Letters(s[e..])
  {
    var a, run, b := s[..k], s[k..e], s[e..];
    assert s == (a + run) + b;
    LettersConcat(a + run, b);
    LettersConcat(a, run);
    PlainBeforeRun(s, k);
    LettersOfPlain(a);
    RunIsTerminators(s, k, e);
    LettersOfRun(run);
  }

  lemma PlainBeforeRun(s: string, k: nat)
    requires k == FirstTerminator(s)
    ensures Plain(s[..k])
  {
    assert forall m :: 0 <= m < k ==> s[..k][m] == s[m];
  }

  lemma RunIsTerminators(s: string, k: nat, e: nat)
    requires k <= |s| && e == RunEnd(s, k)
    ensures forall m :: 0 <= m < |s[k..e]| ==> IsTerminator(s[k..e][m])
  {
    assert forall m :: 0 <= m < e - k ==> s[k..e][m] == s[k + m];
  }

  /** The split takes the piece before the first run and goes on after it. */
  lemma ConcatAroundRun(s: string, k: nat, e: nat)
    requires k == FirstTerminator(s) < |s| && e == RunEnd(s, k)
    ensures Concat(SplitRuns(s)) == s[..k] + Concat(SplitRuns(s[e..]))
  {
    var rest := SplitRuns(s[e..]);
    assert SplitRuns(s) == [s[..k]] + rest;
    assert ([s[..k]] + rest)[1..] == rest;
  }

  // ---------------------------------------------------------------------
  // `generateFallbackSummary(content, title)`

  /** A fragment counts as a sentence when it is longer than 20 characters
      once trimmed. */
  predicate IsSentence(piece: string) {
    |Trim(piece)| > 20
  }

  /** `pieces.filter(s => s.trim().length > 20)` */
  function Sentences(pieces: seq<string>): (kept: seq<string>)
    ensures |kept| <= |pieces|
  {
    if pieces == [] then []
    else if IsSentence(pieces[0]) then [pieces[0]] + Sentences(pieces[1..])
    else Sentences(pieces[1..])
  }

  /** Every fragment kept is a sentence of the split. */
  lemma {:induction false} SentencesKept(pieces: seq<string>)
    ensures forall x :: x in Sentences(pieces) ==> x in pieces && IsSentence(x)
  {
    if pieces != [] {
      SentencesKept(pieces[1..]);
      assert forall x :: x in pieces[1..] ==> x in pieces;
    }
  }

  /** Nothing is kept exactly when no fragment is a sentence. */
  lemma {:induction false} SentencesEmptyIff(pieces: seq<string>)
    ensures Sentences(pieces) == [] <==> forall x :: x in pieces ==> !IsSentence(x)
  {
    if pieces != [] {
      SentencesEmptyIff(pieces[1..]);
      assert pieces == [pieces[0]] + pieces[1..];
    }
  }

  /** `sentences.slice(0, 2)` */
  function FirstTwo(kept: seq<string>): (r: seq<string>)
    ensures |r| == if |kept| < 2 then |kept| else 2
    ensures r == kept[..|r|]
  {
    kept[..if |kept| < 2 then |kept| else 2]
  }

  /** `sentences.slice(0, 2).join('. ').trim()` */
  function Lead(content: string): string {
    Trim(Join(FirstTwo(Sentences(SplitRuns(content))), ". "))
  }

  /** `content`, cut to 200 characters and marked with `...` when longer. */
  function Truncated(content: string): (r: string)
    ensures |content| <= 200 ==> r == content
    ensures |content| > 200 ==> |r| == 203 && r[..200] == content[..200]
  {
    if |content| > 200 then content[..200] + "..." else content
  }

  /** The fallback summary; `title` is accepted and not used, as in the source.
      The two sentences are joined with `". "`, so the lead never ends in `.`
      and the source always appends one; a lead that exists is longer than
      20 characters, so the `> 10` test only asks whether a sentence was
      found. */
  function FallbackSummary(content: string, title: string): (summary: string)
    ensures Sentences(SplitRuns(content)) != [] ==> summary == Lead(content) + "."
    ensures Sentences(SplitRuns(content)) == [] ==> summary == Truncated(content)
  {
    LeadCases(content);
    var lead := Lead(content);
    if |lead| > 10 then lead + (if EndsWith(lead, ".") then "" else ".")
    else Truncated(content)
  }

  /** With no sentence the lead is empty; with one it is longer than 20
      characters and does not end in `.`. */
  lemma LeadCases(content: string)
    ensures Sentences(SplitRuns(content)) == [] ==> Lead(content) == []
    ensures Sentences(SplitRuns(content)) != [] ==> |Lead(content)| > 20 && !EndsWith(Lead(content), ".")
  {
    var pieces := SplitRuns(content);
    var kept := Sentences(pieces);
    SentencesKept(pieces);
    if kept != [] {
      forall x | x in kept
        ensures IsSentence(x) && '.' !in x
      {
        PieceHasNoDot(content, x);
      }
      LeadOfSentences(kept);
    }
  }

  /** The trimmed join of the first one or two sentences, none of them
      containing `.`, is longer than 20 characters and does not end in `.`. */
  lemma LeadOfSentences(kept: seq<string>)
    requires kept != []
    requires forall x :: x in kept ==> IsSentence(x) && '.' !in x
    ensures |Trim(Join(FirstTwo(kept), ". "))| > 20
    ensures !EndsWith(Trim(Join(FirstTwo(kept), ". ")), ".")
  {
    assert kept[0] in kept;
    if |kept| == 1 {
      assert FirstTwo(kept) == [kept[0]];
      OneSentence(kept[0]);
    } else {
      assert kept[1] in kept;
      assert FirstTwo(kept) == [kept[0], kept[1]];
      TwoSentences(kept[0], kept[1]);
    }
  }

  lemma OneSentence(a: string)
    requires IsSentence(a) && '.' !in a
    ensures |Trim(Join([a], ". "))| > 20 && !EndsWith(Trim(Join([a], ". ")), ".")
  {
    var t := Trim(a);
    assert t != [] && t[|t| - 1] in a by {
      var j := NonSpaceOfTrim(a);
      TrimLastFromSuffix("", a, j);
      assert "" + a == a;
    }
    NotEndsWithDot(t);
    assert Join([a], ". ") == a;
  }

  lemma TwoSentences(a: string, b: string)
    requires IsSentence(a) && '.' !in a
    requires IsSentence(b) && '.' !in b
    ensures |Trim(Join([a, b], ". "))| > 20 && !EndsWith(Trim(Join([a, b], ". ")), ".")
  {
    JoinTwo(a, b);
    TwoLong(a, b);
    TwoEndInSecond(a, b);
    NotEndsWithDot(Trim(a + ". " + b));
  }

  lemma JoinTwo(a: string, b: string)
    ensures Join([a, b], ". ") == a + ". " + b
  {
    assert [a, b][1..] == [b];
    assert Join([b], ". ") == b;
  }

  /** The join trims to at least as much as the first sentence. */
  lemma TwoLong(a: string, b: string)
    requires IsSentence(a)
    ensures |Trim(a + ". " + b)| > 20
  {
    var k := NonSpaceOfTrim(a);
    assert a + ". " + b == a + (". " + b);
    TrimConcatLonger(a, ". " + b, k);
  }

  /** The trimmed join ends inside the second sentence. */
  lemma TwoEndInSecond(a: string, b: string)
    requires IsSentence(b) && '.' !in b
    ensures Trim(a + ". " + b) != [] && Trim(a + ". " + b)[|Trim(a + ". " + b)| - 1] != '.'
  {
    var j := NonSpaceOfTrim(b);
    TrimLastFromSuffix(a + ". ", b, j);
  }

  lemma NotEndsWithDot(t: string)
    requires t != [] && t[|t| - 1] != '.'
    ensures !EndsWith(t, ".")
  {
    assert t[|t| - 1..] == [t[|t| - 1]];
  }

  lemma PieceHasNoDot(content: string, piece: string)
    requires piece in SplitRuns(content)
    ensures '.' !in piece
  {
    var pieces := SplitRuns(content);
    var i :| 0 <= i < |pieces| && pieces[i] == piece;
    assert Plain(piece);
  }

  /** Every fallback summary of a content with a sentence is the lead and a
      final `.`; every other one is the content itself or a 203-character cut
      of it. */
  lemma FallbackShape(content: string, title: string)
    ensures var summary := FallbackSummary(content, title);
            (Sentences(SplitRuns(content)) != [] ==> |summary| > 21 && summary[|summary| - 1] == '.')
            && (Sentences(SplitRuns(content)) == [] ==> summary == content || |summary| == 203)
  {
    if Sentences(SplitRuns(content)) != [] {
      LeadCases(content);
      var summary := FallbackSummary(content, title);
      assert summary == Lead(content) + ".";
    }
  }

  /** The summary is empty only for empty content: the empty string has no
      sentence and is too short to truncate. */
  lemma FallbackEmptyIff(content: string, title: string)
    ensures FallbackSummary(content, title) == [] <==> content == []
  {
    if content == [] {
      EmptyHasNoSentence();
    } else {
      FallbackShape(content, title);
    }
  }

  lemma EmptyHasNoSentence()
    ensures Sentences(SplitRuns([])) == []
  {
    assert SplitRuns([]) == [[]];
    assert Sentences([[]]) == [];
  }

  // ---------------------------------------------------------------------
  // `calculateReadingTime(content)`

  const WordsPerMinute := 200

  /** `Math.ceil(content.split(' ').length / 200)`: the pieces between single
      spaces are counted as words, so the count is one more than the number
      of spaces, and the result is always at least one minute. */
  function CalculateReadingTime(content: string): (minutes: nat)
    ensures minutes >= 1
    ensures (minutes - 1) * WordsPerMinute < Count(content, ' ') + 1 <= minutes * WordsPerMinute
  {
    SplitCount(content, ' ');
    var words := |Split(content, ' ')|;
    (words + WordsPerMinute - 1) / WordsPerMinute
  }

  // ---------------------------------------------------------------------
  // The AI request limit of `summarizeContent`

  const MaxAiRequestsPerMinute := 25
  const WindowMs := 60000

  /** `aiRequestCount` and `aiRequestWindow`. */
  datatype Limiter = Limiter(count: int, window: int)

  /** What the model answered: `generateContent` threw, or it returned text. */
  datatype AiReply = AiFailed | AiText(text: string)

  /** The counter after the window check at time `now`. */
  function Refresh(l: Limiter, now: int): (r: Limiter)
    ensures r == l || (now - l.window > WindowMs && r == Limiter(0, now))
    ensures now - l.window > WindowMs ==> r == Limiter(0, now)
  {
    if now - l.window > WindowMs then Limiter(0, now) else l
  }

  /** Whether a request at time `now` reaches the model. */
  predicate Admits(l: Limiter, now: int) {
    Refresh(l, now).count < MaxAiRequestsPerMinute
  }

  /** The counter after a request at time `now` (with a model present). */
  function Tick(l: Limiter, now: int): (r: Limiter)
    ensures r.window >= l.window || now - l.window > WindowMs
  {
    var f := Refresh(l, now);
    if f.count >= MaxAiRequestsPerMinute then f else Limiter(f.count + 1, f.window)
  }

  /** `summarizeContent(content, title)` at time `now`: the new counter and the
      summary.  Without a model the counter is not touched; a request over the
      limit uses the fallback; an admitted request is counted before the model
      is asked, so a failing request still counts. */
  function Summarize(hasModel: bool, l: Limiter, now: int, reply: AiReply, content: string, title: string): (Limiter, string) {
    if !hasModel then (l, FallbackSummary(content, title))
    else if !Admits(l, now) then (Tick(l, now), FallbackSummary(content, title))
    else match reply
      case AiFailed => (Tick(l, now), FallbackSummary(content, title))
      case AiText(text) => (Tick(l, now), Trim(text))
  }

  /** Only an admitted request can produce a summary that is not the fallback,
      and it is then the model's trimmed answer. */
  lemma SummarizeSources(hasModel: bool, l: Limiter, now: int, reply: AiReply, content: string, title: string)
    ensures var (l', summary) := Summarize(hasModel, l, now, reply, content, title);
            summary == FallbackSummary(content, title)
            || (hasModel && Admits(l, now) && reply.AiText? && summary == Trim(reply.text))
    ensures !hasModel ==> Summarize(hasModel, l, now, reply, content, title).0 == l
  {
  }

  /** The counter stays within `0..25`, and it moves up by exactly one for
      every admitted request. */
  lemma TickBounds(l: Limiter, now: int)
    requires 0 <= l.count <= MaxAiRequestsPerMinute
    ensures 0 <= Tick(l, now).count <= MaxAiRequestsPerMinute
    ensures Admits(l, now) <==> Tick(l, now).count == Refresh(l, now).count + 1
  {
  }

  /** The window and the count are reset only when more than a minute has
      passed since the window opened. */
  lemma ResetOnlyWhenExpired(l: Limiter, now: int)
    requires Tick(l, now).window != l.window || Tick(l, now).count < l.count
    ensures now - l.window > WindowMs
    ensures Tick(l, now) == Limiter(1, now)
  {
  }

  /** A window more than a minute old is always reset: the request is then
      admitted and opens a new window at `now` holding just itself. */
  lemma ExpiredWindowReset(l: Limiter, now: int)
    requires now - l.window > WindowMs
    ensures Refresh(l, now) == Limiter(0, now)
    ensures Admits(l, now) && Tick(l, now) == Limiter(1, now)
  {
  }

  /** How many of the requests made at the times `nows` reach the model. */
  function AdmittedCount(l: Limiter, nows: seq<int>): nat
    decreases |nows|
  {
    if nows == [] then 0
    else (if Admits(l, nows[0]) then 1 else 0) + AdmittedCount(Tick(l, nows[0]), nows[1..])
  }

  /** Within one window (no request more than a minute after it opened), at
      most `25 - count` further requests reach the model, and so at most 25
      in all. */
  lemma {:induction false} AtMostLimitPerWindow(l: Limiter, nows: seq<int>)
    requires 0 <= l.count
    requires forall i :: 0 <= i < |nows| ==> nows[i] - l.window <= WindowMs
    ensures AdmittedCount(l, nows) <= if l.count <= MaxAiRequestsPerMinute then MaxAiRequestsPerMinute - l.count else 0
    decreases |nows|
  {
    if nows != [] {
      var next := Tick(l, nows[0]);
      assert next.window == l.window;
      assert forall i :: 0 <= i < |nows[1..]| ==> nows[1..][i] == nows[i + 1];
      AtMostLimitPerWindow(next, nows[1..]);
    }
  }
}
