/** Showing a remote build's output: bytes arrive in chunks of any size on two
    channels, and leave as whole lines, each behind `tag` (the coloured
    `[REMOTE]` and a space). */
module Output {
  import opened Wrappers
  import opened Protocol
  import Strings

  const NEWLINE: byte := 10

  /** `iter().position`: where the first newline is. */
  function Position(s: Bytes): Option<nat> {
    if s == [] then None
    else if s[0] == NEWLINE then Some(0)
    else match Position(s[1..]) case None => None case Some(p) => Some(p + 1)
  }

  lemma {:induction false} PositionMissing(s: Bytes)
    ensures Position(s) == None <==> NEWLINE !in s
    ensures Position(s).Some? ==> Position(s).value < |s|
  {
    if s != [] {
      PositionMissing(s[1..]);
      assert s == [s[0]] + s[1..];
    }
  }

  lemma {:induction false} PositionFound(s: Bytes, p: nat)
    ensures Position(s) == Some(p) <==> p < |s| && s[p] == NEWLINE && NEWLINE !in s[..p]
  {
    if s == [] {
    } else if 0 < p < |s| {
      PositionFound(s[1..], p - 1);
      assert s[..p] == [s[0]] + s[1..][..p - 1];
    } else {
      PositionMissing(s);
    }
  }

  /** The finished lines of `s`, tagged. */
  function Complete(tag: Bytes, s: Bytes): Bytes
    decreases |s|
  {
    PositionMissing(s);
    match Position(s)
    case None => []
    case Some(p) => tag + s[..p + 1] + Complete(tag, s[p + 1..])
  }

  /** What is left over. */
  function Rest(s: Bytes): Bytes
    decreases |s|
  {
    PositionMissing(s);
    match Position(s)
    case None => s
    case Some(p) => Rest(s[p + 1..])
  }

  function Trailing(tag: Bytes, s: Bytes): Bytes {
    if s == [] then [] else tag + s + [NEWLINE]
  }

  /** What the user sees of a whole stream. */
  function Tagged(tag: Bytes, s: Bytes): Bytes {
    Complete(tag, s) + Trailing(tag, Rest(s))
  }

  function DropTag(tag: Bytes, line: Bytes): Bytes {
    if tag <= line then line[|tag|..] else line
  }

  /** Taking the tag off the front of every line. */
  function Untag(tag: Bytes, s: Bytes): Bytes
    decreases |s|
  {
    PositionMissing(s);
    match Position(s)
    case None => DropTag(tag, s)
    case Some(p) => DropTag(tag, s[..p + 1]) + Untag(tag, s[p + 1..])
  }

  predicate EndsLine(s: Bytes) {
    s == [] || s[|s| - 1] == NEWLINE
  }

  lemma FirstLine(line: Bytes, after: Bytes)
    requires NEWLINE !in line
    ensures var s := line + [NEWLINE] + after;
            Position(s) == Some(|line|) && s[..|line| + 1] == line + [NEWLINE] && s[|line| + 1..] == after
  {
    var s := line + [NEWLINE] + after;
    assert s[..|line|] == line;
    PositionFound(s, |line|);
  }

  lemma CutLine(s: Bytes) returns (line: Bytes, after: Bytes)
    requires NEWLINE in s
    ensures NEWLINE !in line && s == line + [NEWLINE] + after
  {
    PositionMissing(s);
    var p := Position(s).value;
    PositionFound(s, p);
    line, after := s[..p], s[p + 1..];
  }

  lemma UntagLine(tag: Bytes, line: Bytes, after: Bytes)
    requires NEWLINE !in line && NEWLINE !in tag
    ensures Untag(tag, tag + line + [NEWLINE] + after) == line + [NEWLINE] + Untag(tag, after)
  {
    FirstLine(tag + line, after);
    var whole := tag + line + [NEWLINE];
    assert whole[..|tag|] == tag && whole[|tag|..] == line + [NEWLINE];
  }

  lemma LineOf(tag: Bytes, line: Bytes, after: Bytes)
    requires NEWLINE !in line
    ensures Complete(tag, line + [NEWLINE] + after) == tag + (line + [NEWLINE]) + Complete(tag, after)
    ensures Rest(line + [NEWLINE] + after) == Rest(after)
  {
    FirstLine(line, after);
  }

  lemma TaggedLine(tag: Bytes, line: Bytes, after: Bytes)
    requires NEWLINE !in line
    ensures Tagged(tag, line + [NEWLINE] + after) == tag + line + [NEWLINE] + Tagged(tag, after)
  {
    LineOf(tag, line, after);
    Strings.Assoc(tag, line, [NEWLINE]);
    Strings.Assoc(tag + line + [NEWLINE], Complete(tag, after), Trailing(tag, Rest(after)));
  }

  /** Nothing is lost, reordered or added but a newline to end the last line:
      taking the tags off again gives the stream back. */
  lemma {:induction false} TaggingLosesNothing(tag: Bytes, s: Bytes)
    requires NEWLINE !in tag && tag != []
    ensures Untag(tag, Tagged(tag, s)) == if EndsLine(s) then s else s + [NEWLINE]
    decreases |s|
  {
    if NEWLINE in s {
      var line, after := CutLine(s);
      TaggedLine(tag, line, after);
      UntagLine(tag, line, Tagged(tag, after));
      TaggingLosesNothing(tag, after);
      Strings.Assoc(line + [NEWLINE], after, [NEWLINE]);
      assert after != [] ==> s[|s| - 1] == after[|after| - 1];
    } else {
      PositionMissing(s);
      if s != [] {
        UntagLine(tag, s, []);
        assert Tagged(tag, s) == tag + s + [NEWLINE] + [];
        assert !EndsLine(s);
      }
    }
  }

  /** Cutting a stream anywhere changes nothing: what the first piece leaves
      unfinished is shown with the second. */
  lemma {:induction false} ChunksJoin(tag: Bytes, a: Bytes, b: Bytes)
    ensures Complete(tag, a + b) == Complete(tag, a) + Complete(tag, Rest(a) + b)
    ensures Rest(a + b) == Rest(Rest(a) + b)
    decreases |a|
  {
    if NEWLINE in a {
      var line, after := CutLine(a);
      LineOf(tag, line, after);
      LineOf(tag, line, after + b);
      Strings.Assoc(line + [NEWLINE], after, b);
      ChunksJoin(tag, after, b);
      Strings.Assoc(tag + (line + [NEWLINE]), Complete(tag, after), Complete(tag, Rest(after) + b));
    } else {
      PositionMissing(a);
    }
  }

  /** One write to a terminal: build output, or a remark of the CLI's own. */
  datatype Write = Remote(bytes: Bytes) | Local(name: string, wire: nat, size: nat)

  function Shown(writes: seq<Write>): Bytes {
    if writes == [] then []
    else Shown(writes[..|writes| - 1]) + match writes[|writes| - 1] case Remote(b) => b case _ => []
  }

  class Terminal {
    var writes: seq<Write>

    constructor ()
      ensures writes == []
    {
      writes := [];
    }

    method Put(w: Write)
      modifies this
      ensures writes == old(writes) + [w]
      ensures Shown(writes) == Shown(old(writes)) + (if w.Remote? then w.bytes else [])
    {
      writes := writes + [w];
      assert writes[..|writes| - 1] == old(writes);
    }
  }

  class Buffer {
    var bytes: Bytes

    constructor ()
      ensures bytes == []
    {
      bytes := [];
    }

    /** `flush_complete_lines`. */
    method FlushCompleteLines(tag: Bytes, out: Terminal)
      modifies this, out
      ensures Shown(out.writes) == Shown(old(out.writes)) + Complete(tag, old(bytes))
      ensures bytes == Rest(old(bytes))
    {
      ghost var done: Bytes := [];
      while NEWLINE in bytes
        invariant Shown(out.writes) == Shown(old(out.writes)) + done
        invariant done + Complete(tag, bytes) == Complete(tag, old(bytes))
        invariant Rest(bytes) == Rest(old(bytes))
        decreases |bytes|
      {
        PositionMissing(bytes);
        var p := Position(bytes).value;
        ghost var shown, line := Shown(old(out.writes)), tag + bytes[..p + 1];
        Strings.Assoc(done, line, Complete(tag, bytes[p + 1..]));
        Strings.Assoc(shown, done, line);
        Strings.Assoc(shown + done, tag, bytes[..p + 1]);
        out.Put(Remote(tag));
        out.Put(Remote(bytes[..p + 1]));
        done := done + line;
        bytes := bytes[p + 1..];
      }
      PositionMissing(bytes);
      assert done + [] == done;
    }

    /** A chunk arrives after `seen`, of which `before + Complete(tag, seen)`
        has been shown. */
    method Receive(tag: Bytes, data: Bytes, out: Terminal, ghost before: Bytes, ghost seen: Bytes)
      requires bytes == Rest(seen) && Shown(out.writes) == before + Complete(tag, seen)
      modifies this, out
      ensures bytes == Rest(seen + data) && Shown(out.writes) == before + Complete(tag, seen + data)
    {
      ChunksJoin(tag, seen, data);
      Strings.Assoc(before, Complete(tag, seen), Complete(tag, Rest(seen) + data));
      bytes := bytes + data;
      FlushCompleteLines(tag, out);
    }

    /** `flush_trailing`. */
    method FlushTrailing(tag: Bytes, out: Terminal)
      modifies this, out
      ensures Shown(out.writes) == Shown(old(out.writes)) + Trailing(tag, old(bytes))
      ensures bytes == []
    {
      if bytes == [] {
        return;
      }
      out.Put(Remote(tag));
      out.Put(Remote(bytes));
      out.Put(Remote([NEWLINE]));
      bytes := [];
    }
  }

  datatype Artifact = Artifact(name: string, contents: Bytes)

  datatype Ending = Finished(exitCode: byte, artifact: Option<Artifact>) | ConnectionLost | BadArtifact

  function OutPayload(m: Message): Bytes {
    if m.BuildStdout? then m.data else []
  }

  function ErrPayload(m: Message): Bytes {
    if m.BuildStderr? then m.data else []
  }

  /** The bytes a run of messages carries on each channel. */
  function OutData(msgs: seq<Message>): Bytes {
    if msgs == [] then [] else OutData(msgs[..|msgs| - 1]) + OutPayload(msgs[|msgs| - 1])
  }

  function ErrData(msgs: seq<Message>): Bytes {
    if msgs == [] then [] else ErrData(msgs[..|msgs| - 1]) + ErrPayload(msgs[|msgs| - 1])
  }

  function NextArtifact(last: Option<Artifact>, m: Message, unpack: Bytes -> Option<Bytes>): Option<Artifact> {
    if !m.Executable? then last
    else match unpack(m.contents) case None => None case Some(raw) => Some(Artifact(m.name, raw))
  }

  /** The last executable, if any. */
  function LastArtifact(msgs: seq<Message>, unpack: Bytes -> Option<Bytes>): Option<Artifact> {
    if msgs == [] then None
    else NextArtifact(LastArtifact(msgs[..|msgs| - 1], unpack), msgs[|msgs| - 1], unpack)
  }

  /** Each channel carries its own messages' bytes and nothing else's. */
  lemma ChannelsApart(msgs: seq<Message>, m: Message)
    ensures OutData(msgs + [m]) == OutData(msgs) + (match m case BuildStdout(data) => data case _ => [])
    ensures ErrData(msgs + [m]) == ErrData(msgs) + (match m case BuildStderr(data) => data case _ => [])
  {
    assert (msgs + [m])[..|msgs|] == msgs;
  }

  /** The artifact is that of the last message that brings an executable. */
  lemma {:induction false} LastArtifactIs(msgs: seq<Message>, unpack: Bytes -> Option<Bytes>)
    requires forall m <- msgs :: !Stops(m, unpack)
    ensures match LastArtifact(msgs, unpack)
            case None => forall m <- msgs :: !m.Executable?
            case Some(a) => exists k: nat | k < |msgs| ::
              && msgs[k].Executable? && a.name == msgs[k].name && unpack(msgs[k].contents) == Some(a.contents)
              && forall j | k < j < |msgs| :: !msgs[j].Executable?
    decreases |msgs|
  {
    if msgs != [] {
      var n := |msgs| - 1;
      LastArtifactIs(msgs[..n], unpack);
      assert msgs == msgs[..n] + [msgs[n]];
      assert msgs[n] in msgs;
    }
  }

  /** A message at which the CLI stops listening. */
  predicate Stops(m: Message, unpack: Bytes -> Option<Bytes>) {
    m.BuildFinished? || (m.Executable? && unpack(m.contents).None?)
  }

  /** What `k` messages that do not stop it have carried. */
  ghost predicate Carried(inbox: seq<Message>, k: nat, unpack: Bytes -> Option<Bytes>, o: Bytes, e: Bytes, last: Option<Artifact>) {
    && k <= |inbox| && (forall i | 0 <= i < k :: !Stops(inbox[i], unpack))
    && o == OutData(inbox[..k]) && e == ErrData(inbox[..k]) && last == LastArtifact(inbox[..k], unpack)
  }

  lemma CarriedOn(inbox: seq<Message>, k: nat, unpack: Bytes -> Option<Bytes>, o: Bytes, e: Bytes, last: Option<Artifact>)
    requires Carried(inbox, k, unpack, o, e, last) && k < |inbox| && !Stops(inbox[k], unpack)
    ensures Carried(inbox, k + 1, unpack, o + OutPayload(inbox[k]), e + ErrPayload(inbox[k]), NextArtifact(last, inbox[k], unpack))
  {
    assert inbox[..k + 1][..k] == inbox[..k];
  }

  /** Of `seen`, the whole lines are on the terminal and the rest is kept. */
  ghost predicate Showing(tag: Bytes, buf: Buffer, out: Terminal, before: Bytes, seen: Bytes)
    reads buf, out
  {
    buf.bytes == Rest(seen) && Shown(out.writes) == before + Complete(tag, seen)
  }

  method ShowData(
      tag: Bytes, m: Message, unpack: Bytes -> Option<Bytes>, stdoutBuf: Buffer, stderrBuf: Buffer, stdout: Terminal, stderr: Terminal,
      ghost outBefore: Bytes, ghost o: Bytes, ghost errBefore: Bytes, ghost e: Bytes)
    requires stdoutBuf != stderrBuf && stdout != stderr && (m.Executable? ==> unpack(m.contents).Some?)
    requires Showing(tag, stdoutBuf, stdout, outBefore, o) && Showing(tag, stderrBuf, stderr, errBefore, e)
    modifies stdoutBuf, stderrBuf, stdout, stderr
    ensures Showing(tag, stdoutBuf, stdout, outBefore, o + OutPayload(m))
    ensures Showing(tag, stderrBuf, stderr, errBefore, e + ErrPayload(m))
  {
    assert o + [] == o && e + [] == e;
    match m {
      case BuildStdout(data) => stdoutBuf.Receive(tag, data, stdout, outBefore, o);
      case BuildStderr(data) => stderrBuf.Receive(tag, data, stderr, errBefore, e);
      case Executable(name, contents) =>
        var raw := unpack(contents);
        stderr.Put(Local(name, |contents|, |raw.value|));
      case _ =>
    }
  }

  /** `stream_build_output`: reads up to the first message that stops it. */
  method StreamBuildOutput(tag: Bytes, inbox: seq<Message>, unpack: Bytes -> Option<Bytes>, stdout: Terminal, stderr: Terminal)
    returns (ending: Ending, read: nat)
    requires stdout != stderr
    modifies stdout, stderr
    ensures read <= |inbox| && forall i | 0 <= i < read :: !Stops(inbox[i], unpack)
    ensures ending.ConnectionLost? <==> read == |inbox|
    ensures read < |inbox| ==> Stops(inbox[read], unpack) && (ending.BadArtifact? <==> inbox[read].Executable?)
    ensures ending.Finished? ==> ending.exitCode == inbox[read].exitCode && ending.artifact == LastArtifact(inbox[..read], unpack)
    ensures var o, e := OutData(inbox[..read]), ErrData(inbox[..read]);
            && Shown(stdout.writes) == Shown(old(stdout.writes)) + (if ending.Finished? then Tagged(tag, o) else Complete(tag, o))
            && Shown(stderr.writes) == Shown(old(stderr.writes)) + if ending.Finished? then Tagged(tag, e) else Complete(tag, e)
  {
    var stdoutBuf := new Buffer();
    var stderrBuf := new Buffer();
    var artifact: Option<Artifact> := None;
    read := 0;
    ghost var o: Bytes, e: Bytes := [], [];
    ghost var outBefore, errBefore := Shown(stdout.writes), Shown(stderr.writes);
    while read < |inbox|
      invariant Carried(inbox, read, unpack, o, e, artifact)
      invariant fresh(stdoutBuf) && fresh(stderrBuf) && stdoutBuf != stderrBuf
      invariant Showing(tag, stdoutBuf, stdout, outBefore, o) && Showing(tag, stderrBuf, stderr, errBefore, e)
    {
      var m := inbox[read];
      if m.BuildFinished? {
        stdoutBuf.FlushTrailing(tag, stdout);
        stderrBuf.FlushTrailing(tag, stderr);
        Strings.Assoc(outBefore, Complete(tag, o), Trailing(tag, Rest(o)));
        Strings.Assoc(errBefore, Complete(tag, e), Trailing(tag, Rest(e)));
        return Finished(m.exitCode, artifact), read;
      }
      if m.Executable? && unpack(m.contents).None? {
        return BadArtifact, read;
      }
      CarriedOn(inbox, read, unpack, o, e, artifact);
      ShowData(tag, m, unpack, stdoutBuf, stderrBuf, stdout, stderr, outBefore, o, errBefore, e);
      if m.Executable? {
        artifact := Some(Artifact(m.name, unpack(m.contents).value));
      }
      o, e := o + OutPayload(m), e + ErrPayload(m);
      read := read + 1;
    }
    assert inbox[..read] == inbox;
    ending := ConnectionLost;
  }
}
