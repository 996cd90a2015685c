/** The reading side of the log pipe (src/log.c:69-100): the buffer is cut in place by strtok_r, and
    the entries are numbered by a counter that outlives the chunks. The counter is unbounded here. */
module LogProcess {
  import opened Common
  import opened Sequences
  import opened LogStream

  datatype Entry = Entry(number: nat, text: string)

  /** The C string held from `pos` on is terminated inside the buffer. */
  ghost predicate Terminated(buffer: seq<char>, pos: nat) {
    exists k :: pos <= k < |buffer| && buffer[k] == '\0'
  }

  /** strspn: past the delimiters in front of the next token. */
  method SkipNewlines(buffer: array<char>, start: nat) returns (i: nat)
    requires Terminated(buffer[..], start)
    ensures start <= i < buffer.Length && buffer[i] != '\n' && Terminated(buffer[..], i)
    ensures Tokens(buffer[i..]) == Tokens(buffer[start..])
  {
    i := start;
    while buffer[i] == '\n'
      invariant start <= i < buffer.Length && Terminated(buffer[..], i)
      invariant Tokens(buffer[i..]) == Tokens(buffer[start..])
      decreases buffer.Length - i
    {
      assert buffer[i..][1..] == buffer[i + 1..];
      i := i + 1;
    }
  }

  /** strcspn: to the delimiter or NUL behind the token that starts at i. */
  method FindBreak(buffer: array<char>, i: nat) returns (j: nat)
    requires Terminated(buffer[..], i) && i < buffer.Length && !Break(buffer[i])
    ensures i < j < buffer.Length && Break(buffer[j]) && Terminated(buffer[..], j)
    ensures Clean(buffer[i..j])
  {
    j := i;
    while !Break(buffer[j])
      invariant i <= j < buffer.Length && Terminated(buffer[..], j)
      invariant forall k :: i <= k < j ==> !Break(buffer[k])
      decreases buffer.Length - j
    {
      j := j + 1;
    }
  }

  /** strtok_r with "\n" as the only delimiter: skips delimiters, ends the token at index `at` with a
      NUL written over the delimiter, and leaves `next` where the search goes on. */
  method NextToken(buffer: array<char>, start: nat) returns (token: Option<string>, at: nat, next: nat)
    requires Terminated(buffer[..], start)
    modifies buffer
    ensures start <= next <= buffer.Length && Terminated(buffer[..], next)
    ensures token.None? ==> buffer[..] == old(buffer[..]) && Tokens(old(buffer[start..])) == []
    ensures token.Some? ==> start <= at < next && at + |token.value| < buffer.Length
    ensures token.Some? ==> buffer[at..at + |token.value|] == token.value
    ensures token.Some? ==> buffer[..] == old(buffer[..])[at + |token.value| := '\0']
    ensures token.Some? ==> Tokens(old(buffer[start..])) == [token.value] + Tokens(buffer[next..])
  {
    var i := SkipNewlines(buffer, start);
    if buffer[i] == '\0' {
      return None, i, i;
    }
    var j := FindBreak(buffer, i);
    at := i;
    token := Some(buffer[i..j]);
    ghost var all := buffer[..];
    CutAt(all, i, j);
    SliceOfArray(buffer, i, j);
    if buffer[j] == '\n' {
      buffer[j] := '\0';
      next := j + 1;
    } else {
      next := j;
    }
    assert buffer[..] == all[j := '\0'];
    SliceOfArray(buffer, next, next);
  }

  /** Cutting the token off at its break j leaves the other tokens behind the cut. */
  lemma CutAt(all: seq<char>, i: nat, j: nat)
    requires i < j < |all| && Clean(all[i..j]) && Break(all[j]) && Terminated(all, j)
    ensures var cut, next := all[j := '\0'], if all[j] == '\n' then j + 1 else j;
      && Terminated(cut, next)
      && Tokens(all[i..]) == [all[i..j]] + Tokens(cut[next..])
  {
    TokenFound(all, i, j);
    var cut := all[j := '\0'];
    if all[j] == '\n' {
      var k :| j <= k < |all| && all[k] == '\0';
      assert cut[k] == '\0' && cut[j + 1..] == all[j + 1..];
    } else {
      assert cut == all && cut[j] == '\0';
    }
  }

  /** The stretch from i to the first break at j is the first token. */
  lemma TokenFound(all: seq<char>, i: nat, j: nat)
    requires i < j < |all| && Clean(all[i..j]) && Break(all[j])
    ensures Tokens(all[i..]) == [all[i..j]] + Tokens(all[j..])
    ensures all[j] == '\n' ==> Tokens(all[j..]) == Tokens(all[j + 1..])
  {
    var token, rest := all[i..j], all[j..];
    TokensAfterClean(token, rest);
    assert rest[0] == all[j] && RunLength(rest) == 0;
    Cut(all, i, j);
  }

  lemma Cut<T>(all: seq<T>, i: nat, j: nat)
    requires i <= j < |all|
    ensures all[i..j] + all[j..] == all[i..]
    ensures all[i..j] + all[j..][..0] == all[i..j] && all[j..][0..] == all[j..] && all[j..][1..] == all[j + 1..]
  {
  }

  /** Entries numbered consecutively from `first` on. */
  ghost predicate Numbered(es: seq<Entry>, first: nat) {
    forall k :: 0 <= k < |es| ==> es[k].number == first + k
  }

  ghost function Texts(es: seq<Entry>): (ts: seq<string>)
    ensures |ts| == |es|
  {
    seq(|es|, k requires 0 <= k < |es| => es[k].text)
  }

  /** read() into the buffer, then the NUL behind the bytes read; the rest is left over. */
  method LoadBuffer(chunk: string) returns (buffer: array<char>)
    requires |chunk| <= BUFFER_SIZE - 1
    ensures fresh(buffer) && Terminated(buffer[..], 0) && Tokens(buffer[0..]) == Tokens(chunk)
  {
    buffer := new char[BUFFER_SIZE](i => if 0 <= i < |chunk| then chunk[i] else '\0');
    assert buffer[|chunk|] == '\0';
    assert buffer[0..] == chunk + buffer[|chunk|..];
    TokensBeforeNul(chunk, buffer[|chunk|..]);
  }

  /** The tokens not yet written: the one in hand and those behind it. */
  ghost function Pending(line: Option<string>, rest: string): seq<string> {
    if line.Some? then [line.value] + Tokens(rest) else []
  }

  class LogWriter {
    var seqNum: nat
    var entries: seq<Entry>

    ghost predicate Valid()
      reads this
    {
      seqNum == |entries| + 1 && Numbered(entries, 1)
    }

    constructor ()
      ensures Valid() && entries == []
    {
      seqNum, entries := 1, [];
    }

    /** fprintf(log_fp, "%u ... %s", seq_num++, line) */
    method Write(text: string)
      requires Valid()
      modifies this
      ensures Valid() && entries == old(entries) + [Entry(old(seqNum), text)]
      ensures Texts(entries) == Texts(old(entries)) + [text]
    {
      entries := entries + [Entry(seqNum, text)];
      seqNum := seqNum + 1;
    }

    /** One read of at most BUFFER_SIZE - 1 bytes: every line of the chunk becomes an entry. */
    method ProcessChunk(chunk: string)
      requires Valid() && |chunk| <= BUFFER_SIZE - 1
      modifies this
      ensures Valid()
      ensures Texts(entries) == Texts(old(entries)) + Tokens(chunk)
    {
      var buffer := LoadBuffer(chunk);
      var line, at, next := NextToken(buffer, 0);
      ghost var goal := Texts(entries) + Tokens(chunk);
      assert Pending(line, buffer[next..]) == Tokens(chunk);
      while line.Some?
        invariant Valid() && next <= buffer.Length && Terminated(buffer[..], next)
        invariant Texts(entries) + Pending(line, buffer[next..]) == goal
        decreases line.Some?, buffer.Length - next
      {
        ghost var before, rest := Texts(entries), buffer[next..];
        Write(line.value);
        Associative(before, [line.value], Tokens(rest));
        line, at, next := NextToken(buffer, next);
        assert Pending(line, buffer[next..]) == Tokens(rest);
      }
    }

    /** The read loop: it ends with the first empty read; chunks after that are not read. */
    method Run(chunks: seq<string>) returns (taken: nat)
      requires Valid() && forall c :: c in chunks ==> |c| <= BUFFER_SIZE - 1
      modifies this
      ensures Valid() && taken <= |chunks|
      ensures (forall k :: 0 <= k < taken ==> chunks[k] != "") && (taken < |chunks| ==> chunks[taken] == "")
      ensures Texts(entries) == Texts(old(entries)) + AllTokens(chunks[..taken])
      ensures forall k :: 0 <= k < |entries| ==> entries[k].number == k + 1
    {
      taken := 0;
      while taken < |chunks| && chunks[taken] != ""
        invariant Valid() && taken <= |chunks|
        invariant forall k :: 0 <= k < taken ==> chunks[k] != ""
        invariant Texts(entries) == Texts(old(entries)) + AllTokens(chunks[..taken])
      {
        ProcessChunk(chunks[taken]);
        taken := taken + 1;
        assert chunks[..taken][..taken - 1] == chunks[..taken - 1];
      }
    }
  }

  /** The NUL behind the chunk ends the tokens of the buffer with those of the chunk. */
  lemma {:induction false} TokensBeforeNul(s: string, rest: string)
    requires rest != "" && rest[0] == '\0'
    ensures Tokens(s + rest) == Tokens(s)
    decreases |s|
  {
    if s == "" {
      assert s + rest == rest;
    } else {
      var all := s + rest;
      assert all[0] == s[0];
      if s[0] == '\n' {
        assert all[1..] == s[1..] + rest;
        TokensBeforeNul(s[1..], rest);
      } else if s[0] != '\0' {
        var n := RunLength(s);
        var tail := s[n..] + rest;
        TokensBeforeNul(s[n..], rest);
        assert Break(tail[0]) && RunLength(tail) == 0;
        TokensAfterClean(s[..n], tail);
        assert all == s[..n] + tail && s[..n] + tail[..0] == s[..n] && tail[0..] == tail;
      }
    }
  }
}
