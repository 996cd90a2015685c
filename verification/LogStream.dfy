/** The log pipe (src/log.c): how messages are framed, how the reader cuts its buffer into lines and
    numbers them, and when the messages come out as they went in. */
module LogStream {
  const BUFFER_SIZE := 4096
  const MESSAGE_SIZE := 256

  /** Characters that end a token: the delimiter and the end of the string. */
  predicate Break(c: char) {
    c == '\n' || c == '\0'
  }

  ghost predicate Clean(s: string) {
    forall i :: 0 <= i < |s| ==> !Break(s[i])
  }

  /** snprintf("%s\n") into MESSAGE_SIZE bytes: a long message loses its end and the newline. */
  function Frame(msg: string): string {
    var line := msg + "\n";
    if |line| < MESSAGE_SIZE then line else line[..MESSAGE_SIZE - 1]
  }

  /** What arrives when these messages are written one after another. */
  function Sent(msgs: seq<string>): string {
    if msgs == [] then "" else Frame(msgs[0]) + Sent(msgs[1..])
  }

  // ---------- tokens ----------

  function RunLength(s: string): (n: nat)
    ensures n <= |s| && (n < |s| ==> Break(s[n]))
    ensures forall i :: 0 <= i < n ==> !Break(s[i])
  {
    if s == "" || Break(s[0]) then 0 else 1 + RunLength(s[1..])
  }

  /** The lines of a chunk: the maximal runs between newlines, up to the first NUL. */
  function Tokens(s: string): (ts: seq<string>)
    decreases |s|
  {
    if s == "" || s[0] == '\0' then []
    else if s[0] == '\n' then Tokens(s[1..])
    else [s[..RunLength(s)]] + Tokens(s[RunLength(s)..])
  }

  function AllTokens(chunks: seq<string>): seq<string> {
    if chunks == [] then [] else AllTokens(chunks[..|chunks| - 1]) + Tokens(chunks[|chunks| - 1])
  }

  function Flatten(ss: seq<string>): string {
    if ss == [] then "" else Flatten(ss[..|ss| - 1]) + ss[|ss| - 1]
  }

  /** The stream without its newlines. */
  function Strip(s: string): string {
    if s == "" then "" else (if s[0] == '\n' then "" else [s[0]]) + Strip(s[1..])
  }

  lemma {:induction false} FlattenConcat(a: seq<string>, b: seq<string>)
    ensures Flatten(a + b) == Flatten(a) + Flatten(b)
  {
    if b == [] {
      assert a + b == a;
    } else {
      var n := |b| - 1;
      FlattenConcat(a, b[..n]);
      assert (a + b)[..|a + b| - 1] == a + b[..n];
    }
  }

  lemma {:induction false} StripConcat(a: string, b: string)
    ensures Strip(a + b) == Strip(a) + Strip(b)
  {
    if a == "" {
      assert a + b == b;
    } else {
      var ab := a + b;
      assert ab[0] == a[0] && ab[1..] == a[1..] + b;
      StripConcat(a[1..], b);
      var head := if a[0] == '\n' then "" else [a[0]];
      assert head + (Strip(a[1..]) + Strip(b)) == (head + Strip(a[1..])) + Strip(b);
    }
  }

  lemma {:induction false} StripClean(s: string)
    requires Clean(s)
    ensures Strip(s) == s
  {
    if s != "" {
      StripClean(s[1..]);
    }
  }

  /** Tokenising one chunk keeps every character but the newlines, unless there is a NUL in it. */
  lemma {:induction false} TokensKeepText(s: string)
    ensures '\0' !in s ==> Flatten(Tokens(s)) == Strip(s)
    ensures '\0' in s ==> |Flatten(Tokens(s))| < |Strip(s)|
    decreases |s|
  {
    if s == "" || s[0] == '\0' {
    } else if s[0] == '\n' {
      TokensKeepText(s[1..]);
      assert s == ['\n'] + s[1..];
    } else {
      var n := RunLength(s);
      var token, rest := s[..n], s[n..];
      TokensKeepText(rest);
      StripConcat(token, rest);
      StripClean(token);
      assert s == token + rest;
      FlattenConcat([token], Tokens(rest));
      assert Flatten([token]) == Flatten([]) + token;
    }
  }

  /** Under any chunking of the stream the texts of the entries, put together, are the stream without
      its newlines exactly when no chunk contains a NUL. */
  lemma {:induction false} ChunkingKeepsText(chunks: seq<string>)
    ensures (forall c :: c in chunks ==> '\0' !in c) <==> Flatten(AllTokens(chunks)) == Strip(Flatten(chunks))
    ensures |Flatten(AllTokens(chunks))| <= |Strip(Flatten(chunks))|
  {
    if chunks != [] {
      var front, last := chunks[..|chunks| - 1], chunks[|chunks| - 1];
      ChunkingKeepsText(front);
      TokensKeepText(last);
      FlattenConcat(AllTokens(front), Tokens(last));
      StripConcat(Flatten(front), last);
      SumsEqual(Flatten(AllTokens(front)), Flatten(Tokens(last)), Strip(Flatten(front)), Strip(last));
      assert chunks == front + [last];
    }
  }

  lemma SumsEqual(a: string, b: string, a': string, b': string)
    requires |a| <= |a'| && |b| <= |b'|
    ensures a + b == a' + b' <==> a == a' && b == b'
  {
    if a + b == a' + b' {
      assert |a| + |b| == |a'| + |b'|;
      assert a == (a + b)[..|a|] && a' == (a' + b')[..|a|];
      assert b == (a + b)[|a|..] && b' == (a' + b')[|a|..];
    }
  }

  // ---------- lines ----------

  /** The lines with a newline behind each. */
  function Lines(ls: seq<string>): string {
    if ls == [] then "" else ls[0] + "\n" + Lines(ls[1..])
  }

  function NonEmpty(ls: seq<string>): seq<string> {
    if ls == [] then [] else (if ls[0] == "" then [] else [ls[0]]) + NonEmpty(ls[1..])
  }

  /** The tokens of any text are its nonempty lines, however long, the last one with or without its
      newline; what follows a NUL does not matter. */
  lemma {:induction false} TokensAreLines(ls: seq<string>, last: string, rest: string)
    requires (forall k :: 0 <= k < |ls| ==> Clean(ls[k])) && Clean(last) && (rest == "" || rest[0] == '\0')
    ensures Tokens(Lines(ls) + last + rest) == NonEmpty(ls) + (if last == "" then [] else [last])
  {
    if ls == [] {
      LastLine(last, rest);
      assert Lines(ls) + last + rest == last + rest;
    } else {
      var m, tail := ls[0], Lines(ls[1..]) + last + rest;
      var first, others, end := if m == "" then [] else [m], NonEmpty(ls[1..]), if last == "" then [] else [last];
      TokensAreLines(ls[1..], last, rest);
      FirstLine(m, tail);
      LinesInParts(m, ls[1..], last, rest);
      assert Lines(ls) == m + "\n" + Lines(ls[1..]);
      assert first + (others + end) == (first + others) + end;
    }
  }

  lemma LinesInParts(m: string, ls: seq<string>, last: string, rest: string)
    ensures m + "\n" + (Lines(ls) + last + rest) == (m + "\n" + Lines(ls)) + last + rest
  {
  }

  lemma LastLine(last: string, rest: string)
    requires Clean(last) && (rest == "" || rest[0] == '\0')
    ensures Tokens(last + rest) == if last == "" then [] else [last]
  {
    if last == "" {
      assert last + rest == rest;
    } else {
      TokensAfterClean(last, rest);
      assert last + rest[..0] == last && rest[0..] == rest;
    }
  }

  lemma FirstLine(m: string, tail: string)
    requires Clean(m)
    ensures Tokens(m + "\n" + tail) == (if m == "" then [] else [m]) + Tokens(tail)
  {
    var s := "\n" + tail;
    assert m + "\n" + tail == m + s;
    assert s[1..] == tail && RunLength(s) == 0;
    if m != "" {
      TokensAfterClean(m, s);
      assert m + s[..0] == m && s[0..] == s;
    } else {
      assert m + s == s;
    }
  }

  // ---------- recovering messages ----------

  lemma {:induction false} RunAfterClean(a: string, s: string)
    requires Clean(a)
    ensures RunLength(a + s) == |a| + RunLength(s)
  {
    if a == "" {
      assert a + s == s;
    } else {
      RunAfterClean(a[1..], s);
      assert (a + s)[1..] == a[1..] + s;
    }
  }

  /** A clean stretch in front is one token, together with whatever it runs into. */
  lemma TokensAfterClean(a: string, s: string)
    requires a != "" && Clean(a)
    ensures Tokens(a + s) == [a + s[..RunLength(s)]] + Tokens(s[RunLength(s)..])
  {
    RunAfterClean(a, s);
    var n := RunLength(s);
    assert (a + s)[..|a| + n] == a + s[..n];
    assert (a + s)[|a| + n..] == s[n..];
    assert (a + s)[0] == a[0];
  }

  lemma {:induction false} TokensAreClean(s: string)
    ensures forall t :: t in Tokens(s) ==> t != "" && Clean(t)
    decreases |s|
  {
    if s == "" || s[0] == '\0' {
    } else if s[0] == '\n' {
      TokensAreClean(s[1..]);
    } else {
      TokensAreClean(s[RunLength(s)..]);
    }
  }

  /** A message that fits is one token of its own. */
  lemma ShortMessage(m: string, rest: string)
    requires m != "" && Clean(m) && |m| <= MESSAGE_SIZE - 2
    ensures Tokens(Frame(m) + rest) == [m] + Tokens(rest)
  {
    var s := "\n" + rest;
    TokensAfterClean(m, s);
    assert Frame(m) + rest == m + s;
    assert s[RunLength(s)..] == s && s[1..] == rest;
    assert m + s[..RunLength(s)] == m;
  }

  /** A message that does not fit runs into the next one, if there is any. */
  lemma LongMessage(m: string, rest: string)
    requires Clean(m) && |m| > MESSAGE_SIZE - 2
    ensures rest == "" ==> Tokens(Frame(m) + rest) == [m[..MESSAGE_SIZE - 1]]
    ensures rest != "" && !Break(rest[0]) ==> |Tokens(Frame(m) + rest)| == |Tokens(rest)|
  {
    var a := m[..MESSAGE_SIZE - 1];
    assert Frame(m) == a;
    TokensAfterClean(a, rest);
  }

  /** Messages whose framed forms are recovered: not empty, without newline, and short enough to keep
      their newline; the very last one may be one character longer. */
  ghost predicate Recoverable(msgs: seq<string>) {
    forall k :: 0 <= k < |msgs| ==>
      && msgs[k] != "" && Clean(msgs[k])
      && |msgs[k]| <= (if k == |msgs| - 1 then MESSAGE_SIZE - 1 else MESSAGE_SIZE - 2)
  }

  ghost predicate AllClean(msgs: seq<string>) {
    forall k :: 0 <= k < |msgs| ==> msgs[k] != "" && Clean(msgs[k])
  }

  lemma {:induction false} AtMostOneTokenEach(msgs: seq<string>)
    requires AllClean(msgs)
    ensures |Tokens(Sent(msgs))| <= |msgs|
    ensures msgs != [] ==> Sent(msgs) != "" && !Break(Sent(msgs)[0])
  {
    if msgs != [] {
      var m, rest := msgs[0], msgs[1..];
      AtMostOneTokenEach(rest);
      if |m| <= MESSAGE_SIZE - 2 {
        ShortMessage(m, Sent(rest));
      } else {
        LongMessage(m, Sent(rest));
      }
    }
  }

  lemma {:induction false} RecoverableSuffices(msgs: seq<string>)
    requires Recoverable(msgs)
    ensures Tokens(Sent(msgs)) == msgs
  {
    if msgs != [] {
      var m, rest := msgs[0], msgs[1..];
      assert Clean(m) && m != "";
      RecoverableSuffices(rest);
      if |m| <= MESSAGE_SIZE - 2 {
        ShortMessage(m, Sent(rest));
      } else {
        assert rest == [];
        LongMessage(m, "");
        assert Frame(m) + "" == Sent(msgs);
        assert m[..MESSAGE_SIZE - 1] == m;
      }
      assert msgs == [m] + rest;
    }
  }

  lemma {:induction false} RecoveryNeeds(msgs: seq<string>)
    requires AllClean(msgs) && Tokens(Sent(msgs)) == msgs
    ensures Recoverable(msgs)
  {
    if msgs != [] {
      var m, rest := msgs[0], msgs[1..];
      if |m| <= MESSAGE_SIZE - 2 {
        ShortMessage(m, Sent(rest));
        assert Tokens(Sent(rest)) == Tokens(Sent(msgs))[1..];
        RecoveryNeeds(rest);
        assert forall k :: 0 < k < |msgs| ==> msgs[k] == rest[k - 1];
      } else {
        AtMostOneTokenEach(rest);
        LongMessage(m, Sent(rest));
        assert rest == [];
        assert Frame(m) + "" == Sent(msgs);
      }
    }
  }

  /** A chunk cut at message ends gives back exactly the messages written if and only if each of them is
      nonempty, free of newlines and NULs, and at most 254 characters long, the last one 255; so every list of nonempty messages without newline (and, being C
      strings, without NUL) of at most 254 characters comes back. */
  lemma MessagesRecoveredExactly(msgs: seq<string>)
    ensures Tokens(Sent(msgs)) == msgs <==> forall k :: 0 <= k < |msgs| ==>
      && msgs[k] != "" && '\n' !in msgs[k] && '\0' !in msgs[k]
      && |msgs[k]| <= (if k == |msgs| - 1 then 255 else 254)
    ensures Tokens(Sent(msgs)) == msgs <==> Recoverable(msgs)
  {
    assert forall k :: 0 <= k < |msgs| ==> (Clean(msgs[k]) <==> '\n' !in msgs[k] && '\0' !in msgs[k]);
    if Recoverable(msgs) {
      RecoverableSuffices(msgs);
    }
    if Tokens(Sent(msgs)) == msgs {
      TokensAreClean(Sent(msgs));
      assert forall k :: 0 <= k < |msgs| ==> msgs[k] in Tokens(Sent(msgs));
      RecoveryNeeds(msgs);
    }
  }

  /** Batches of messages, each batch arriving as one chunk. */
  function Chunks(batches: seq<seq<string>>): (cs: seq<string>)
    ensures |cs| == |batches|
  {
    seq(|batches|, k requires 0 <= k < |batches| => Sent(batches[k]))
  }

  function Joined(batches: seq<seq<string>>): seq<string> {
    if batches == [] then [] else Joined(batches[..|batches| - 1]) + batches[|batches| - 1]
  }

  /** However the messages are batched into chunks, all of them come out, in order. */
  lemma {:induction false} BatchesRecovered(batches: seq<seq<string>>)
    requires forall k :: 0 <= k < |batches| ==> Recoverable(batches[k])
    ensures AllTokens(Chunks(batches)) == Joined(batches)
  {
    if batches != [] {
      var n := |batches| - 1;
      BatchesRecovered(batches[..n]);
      assert Chunks(batches)[..n] == Chunks(batches[..n]);
      RecoverableSuffices(batches[n]);
    }
  }
}
