/** The logger: messages gather in a buffer and go to the file a buffer at a time. It is proved
    against a log that writes every message at once. */
module BufferedLog {
  import opened Words

  type Text = seq<byte>

  const BUFFER := 0x400
  const FORMATTED := 0x200

  // ---------- the log without a buffer

  /** Whether the log can be written to: never opened or closed again, open on a file, or stuck
      with the error code a failed open left behind. */
  datatype Mode = Idle | Open(path: string) | Stuck

  /** Every file on the device is what has been logged to it. */
  datatype Log = Log(mode: Mode, files: map<string, Text>)

  /** A call; `fd` is what the kernel answers to an open, `text` is the formatted message. */
  datatype Call = LogOpen(path: string, fd: int) | LogWrite(text: Text) | LogClose

  function FileAt(files: map<string, Text>, path: string): Text {
    if path in files then files[path] else []
  }

  /** The files with a text put at the end of one of them. */
  function Put(files: map<string, Text>, path: string, text: Text): map<string, Text> {
    files[path := FileAt(files, path) + text]
  }

  lemma PutNothing(files: map<string, Text>, path: string)
    requires path in files
    ensures Put(files, path, []) == files
  {
    assert files[path] + [] == files[path];
  }

  lemma PutTwice(files: map<string, Text>, path: string, a: Text, b: Text)
    ensures Put(Put(files, path, a), path, b) == Put(files, path, a + b)
  {
    assert FileAt(files, path) + a + b == FileAt(files, path) + (a + b);
  }

  /** What a message adds: formatting keeps all but the last two bytes of the space it is given,
      and the length it reports is the length the whole message would have had. */
  function Kept(text: Text): (r: Text)
    ensures |r| == |text|
  {
    if |text| <= FORMATTED - 2 then text else text[..FORMATTED - 2] + Zeros(|text| - (FORMATTED - 2))
  }

  /** The first 0x1FE bytes are kept and NUL bytes follow, so a message is logged as it is exactly when
      what does not fit is nothing but NUL bytes. */
  lemma KeptIff(text: Text)
    ensures forall i :: 0 <= i < |text| ==> Kept(text)[i] == if i < 0x1FE then text[i] else 0
    ensures Kept(text) == text <==> forall i :: 0x1FE <= i < |text| ==> text[i] == 0
  {
    if |text| > FORMATTED - 2 {
      var k := FORMATTED - 2;
      assert forall i :: k <= i < |text| ==> Kept(text)[i] == Zeros(|text| - k)[i - k];
      assert Kept(text)[..k] == text[..k];
      if forall i :: k <= i < |text| ==> text[i] == 0 {
        assert Kept(text)[k..] == text[k..];
        assert text[..k] + text[k..] == text;
      }
    }
  }

  /** Texts as formatting leaves strings: without NUL bytes. */
  predicate Printed(texts: seq<Text>) {
    forall i :: 0 <= i < |texts| ==> 0 !in texts[i]
  }

  function Zeros(n: nat): (r: Text)
    ensures |r| == n && forall i :: 0 <= i < n ==> r[i] == 0
  {
    if n == 0 then [] else Zeros(n - 1) + [0]
  }

  /** One call on a log that writes at once. */
  function Step(log: Log, call: Call): Log {
    match call
    case LogOpen(path, fd) =>
      if !log.mode.Idle? || fd == 0 then log
      else if fd < 0 then log.(mode := Stuck)
      else Log(Open(path), Put(log.files, path, []))
    case LogWrite(text) =>
      if log.mode.Open? then log.(files := Put(log.files, log.mode.path, Kept(text))) else log
    case LogClose => if log.mode.Open? then log.(mode := Idle) else log
  }

  function Run(log: Log, calls: seq<Call>): Log {
    if calls == [] then log else Step(Run(log, calls[..|calls| - 1]), calls[|calls| - 1])
  }

  /** Messages one after the other. */
  function Joined(texts: seq<Text>): Text {
    if texts == [] then [] else Joined(texts[..|texts| - 1]) + texts[|texts| - 1]
  }

  function Writes(texts: seq<Text>): (calls: seq<Call>)
    ensures |calls| == |texts| && forall i :: 0 <= i < |texts| ==> calls[i] == LogWrite(texts[i])
  {
    seq(|texts|, i requires 0 <= i < |texts| => LogWrite(texts[i]))
  }

  function AllKept(texts: seq<Text>): (r: seq<Text>)
    ensures |r| == |texts| && forall i :: 0 <= i < |texts| ==> r[i] == Kept(texts[i])
  {
    seq(|texts|, i requires 0 <= i < |texts| => Kept(texts[i]))
  }

  /** No message is longer than what formatting keeps whole. */
  predicate Short(texts: seq<Text>) {
    forall i :: 0 <= i < |texts| ==> |texts[i]| <= 0x1FE
  }

  lemma {:induction false} WritesJoin(log: Log, texts: seq<Text>)
    requires log.mode.Open? && log.mode.path in log.files
    ensures Run(log, Writes(texts)) == log.(files := Put(log.files, log.mode.path, Joined(AllKept(texts))))
  {
    hide Put, Kept;
    var path := log.mode.path;
    if texts == [] {
      PutNothing(log.files, path);
    } else {
      var init, last := texts[..|texts| - 1], texts[|texts| - 1];
      WritesJoin(log, init);
      assert Writes(texts)[..|texts| - 1] == Writes(init);
      assert AllKept(texts)[..|texts| - 1] == AllKept(init);
      PutTwice(log.files, path, Joined(AllKept(init)), Kept(last));
    }
  }

  /** Opened, written to and closed: the file has grown by what is kept of the messages, in their
      order, and no other file has changed. */
  lemma SessionAppends(log: Log, path: string, fd: int, texts: seq<Text>)
    requires log.mode.Idle? && fd > 0
    ensures Run(log, [LogOpen(path, fd)] + (Writes(texts) + [LogClose])) ==
            Log(Idle, log.files[path := (if path in log.files then log.files[path] else []) + Joined(AllKept(texts))])
  {
    var begun := Step(log, LogOpen(path, fd));
    var calls := Writes(texts) + [LogClose];
    RunAfter(log, LogOpen(path, fd), calls);
    assert calls[..|texts|] == Writes(texts);
    WritesJoin(begun, texts);
    PutTwice(log.files, path, [], Joined(AllKept(texts)));
    assert [] + Joined(AllKept(texts)) == Joined(AllKept(texts));
    hide Put, Joined, FileAt, Writes, Kept;
    LastCall(begun, calls);
  }

  lemma ConcatSame(x: Text, a: Text, y: Text, b: Text)
    requires |x| == |y|
    ensures x + a == y + b <==> x == y && a == b
  {
    assert (x + a)[..|x|] == x && (x + a)[|x|..] == a;
    assert (y + b)[..|y|] == y && (y + b)[|y|..] == b;
  }

  lemma {:induction false} JoinedSame(a: seq<Text>, b: seq<Text>)
    requires |a| == |b| && forall i :: 0 <= i < |a| ==> |a[i]| == |b[i]|
    ensures |Joined(a)| == |Joined(b)| && (Joined(a) == Joined(b) <==> a == b)
  {
    if a != [] {
      var n := |a| - 1;
      JoinedSame(a[..n], b[..n]);
      ConcatSame(Joined(a[..n]), a[n], Joined(b[..n]), b[n]);
      assert a[..n] + [a[n]] == a && b[..n] + [b[n]] == b;
    }
  }

  lemma ShortIff(texts: seq<Text>)
    requires Printed(texts)
    ensures AllKept(texts) == texts <==> Short(texts)
  {
    hide Kept;
    forall i | 0 <= i < |texts| ensures Kept(texts[i]) == texts[i] <==> |texts[i]| <= FORMATTED - 2 {
      KeptIff(texts[i]);
      if |texts[i]| > FORMATTED - 2 {
        assert texts[i][FORMATTED - 2] in texts[i];
      }
    }
    if AllKept(texts) == texts {
      assert forall i :: 0 <= i < |texts| ==> AllKept(texts)[i] == Kept(texts[i]);
    }
  }

  /** The file has grown by the messages as they are exactly when none is longer than 0x1FE bytes. */
  lemma VerbatimIff(log: Log, path: string, fd: int, texts: seq<Text>)
    requires log.mode.Idle? && fd > 0 && Printed(texts)
    ensures Run(log, [LogOpen(path, fd)] + (Writes(texts) + [LogClose])) ==
            Log(Idle, log.files[path := (if path in log.files then log.files[path] else []) + Joined(texts)])
            <==> Short(texts)
  {
    SessionAppends(log, path, fd, texts);
    JoinedSame(AllKept(texts), texts);
    ShortIff(texts);
    hide Joined, Kept, Run, Short, Printed;
    var had, kept, all := FileAt(log.files, path), Joined(AllKept(texts)), Joined(texts);
    assert (had + kept)[|had|..] == kept && (had + all)[|had|..] == all;
    assert log.files[path := had + kept][path] == had + kept && log.files[path := had + all][path] == had + all;
  }

  lemma LastCall(log: Log, calls: seq<Call>)
    requires calls != []
    ensures Run(log, calls) == Step(Run(log, calls[..|calls| - 1]), calls[|calls| - 1])
  {
  }

  lemma {:induction false} RunAfter(log: Log, first: Call, rest: seq<Call>)
    ensures Run(log, [first] + rest) == Run(Step(log, first), rest)
  {
    hide Step;
    var calls := [first] + rest;
    if rest == [] {
      assert calls[..0] == [] && calls[0] == first;
      assert Run(log, []) == log;
    } else {
      RunAfter(log, first, rest[..|rest| - 1]);
      assert calls[..|calls| - 1] == [first] + rest[..|rest| - 1];
    }
  }

  /** A failed open is for good: no later call opens the log or writes anything. */
  lemma {:induction false} StuckForGood(log: Log, calls: seq<Call>)
    requires log.mode.Stuck?
    ensures Run(log, calls) == log
  {
    if calls != [] {
      StuckForGood(log, calls[..|calls| - 1]);
    }
  }

  /** While the log is open on a file, it stays there until it is closed: no other open takes effect. */
  lemma {:induction false} OpenStays(log: Log, calls: seq<Call>)
    requires log.mode.Open? && forall c :: c in calls ==> !c.LogClose?
    ensures Run(log, calls).mode == log.mode
    ensures forall p :: p != log.mode.path ==> (p in Run(log, calls).files <==> p in log.files)
    ensures forall p :: p != log.mode.path && p in log.files ==> Run(log, calls).files[p] == log.files[p]
  {
    if calls != [] {
      assert calls[|calls| - 1] in calls;
      OpenStays(log, calls[..|calls| - 1]);
    }
  }

  /** A message longer than the scratch buffer meets an open log. */
  predicate Strays(log: Log, call: Call) {
    call.LogWrite? && log.mode.Open? && |call.text| > FORMATTED
  }

  predicate Safe(log: Log, calls: seq<Call>) {
    forall n :: 0 <= n < |calls| ==> !Strays(Run(log, calls[..n]), calls[n])
  }

  // ---------- the logger

  class Logger {
    var logFd: int
    var logPos: nat
    var logBuff: array<byte>
    /** The file the descriptor stands for, and what the device holds. */
    var path: string
    var files: map<string, Text>

    /** The buffer is never full, holds nothing but zeros behind what is waiting, and something
        waits only while the log is open. */
    ghost predicate Valid()
      reads this, logBuff
    {
      && logBuff.Length == BUFFER && logPos < BUFFER
      && (forall i :: logPos <= i < BUFFER ==> logBuff[i] == 0)
      && (logFd > 0 ==> path in files)
      && (logFd <= 0 ==> logPos == 0)
    }

    ghost function Pending(): Text
      reads this, logBuff
      requires Valid()
    {
      logBuff[..logPos]
    }

    /** The log as it would be with nothing waiting. */
    ghost function View(): Log
      reads this, logBuff
      requires Valid()
    {
      if logFd > 0 then Log(Open(path), Put(files, path, Pending()))
      else Log(if logFd == 0 then Idle else Stuck, files)
    }

    constructor (device: map<string, Text>)
      ensures Valid() && fresh(logBuff)
      ensures View() == Log(Idle, device)
    {
      logFd, logPos, path, files := 0, 0, "", device;
      logBuff := new byte[BUFFER](i => 0);
    }

    method LogIsOpened() returns (r: int)
      requires Valid()
      ensures r == if View().mode.Open? then 1 else 0
    {
      if logFd < 0 {
        return 0;
      }
      r := if logFd == 0 then 0 else 1;
    }

    /** The result says only whether a descriptor was there already, not whether opening failed. */
    method LogOpen(p: string, fd: int) returns (r: int)
      requires Valid()
      modifies this`logFd, this`logPos, this`path, this`files
      ensures Valid() && View() == Step(old(View()), Call.LogOpen(p, fd))
      ensures r == if old(View()).mode.Idle? then 0 else -1
    {
      if logFd == 0 {
        logFd := fd;
        if fd > 0 {
          path, files := p, Put(files, p, []);
          PutNothing(files, p);
        }
        logPos := 0;
      } else {
        return -1;
      }
      return 0;
    }

    /** Sends what is waiting to the file and clears the space. */
    method Flush()
      requires Valid() && logFd > 0
      modifies this`logPos, this`files, logBuff
      ensures Valid() && View() == old(View()) && logPos == 0
      ensures files == Put(old(files), path, old(Pending()))
    {
      files := Put(files, path, logBuff[..logPos]);
      forall i | 0 <= i < logPos { logBuff[i] := 0; }
      logPos := 0;
      PutNothing(files, path);
    }

    /** Formats a message into a cleared scratch buffer, which keeps its last byte: at most 0x1FE
        characters and their terminator are written. */
    static method Format(text: Text) returns (scratch: array<byte>)
      ensures fresh(scratch) && scratch.Length == FORMATTED
      ensures forall n :: 0 <= n <= |text| && n <= FORMATTED ==> scratch[..n] == Kept(text)[..n]
    {
      scratch := new byte[FORMATTED](i requires 0 <= i => if i < |text| && i < FORMATTED - 2 then text[i] else 0);
    }

    /** Puts the formatted message behind what is waiting. */
    method Append(scratch: array<byte>, n: nat)
      requires Valid() && logFd > 0 && logPos + n < BUFFER && n <= scratch.Length && scratch != logBuff
      modifies this`logPos, logBuff
      ensures Valid() && logPos == old(logPos) + n
      ensures Pending() == old(Pending()) + old(scratch[..n])
    {
      forall i | 0 <= i < n { logBuff[logPos + i] := scratch[i]; }
      logPos := logPos + n;
    }

    /** Sends what is waiting if the message does not fit behind it with less than 0x400 bytes in all,
        then copies as many bytes of the scratch buffer as the whole message would have had.  Stops
        before a copy that does not stay inside both buffers; it does exactly when the message is no
        longer than the scratch buffer. */
    method LogWrite(text: Text) returns (r: int, inside: bool)
      requires Valid()
      modifies this`logPos, this`files, logBuff
      ensures Valid() && r == 0
      ensures inside <==> (old(View()).mode.Open? ==> |text| <= 0x200)
      ensures inside && old(View()).mode.Open? ==>
                if old(logPos) + |text| < 0x400 then files == old(files) && logPos == old(logPos) + |text|
                else files == Put(old(files), path, old(Pending())) && logPos == |text|
      ensures View() == if inside then Step(old(View()), Call.LogWrite(text)) else old(View())
    {
      r, inside := 0, true;
      if logFd > 0 {
        ghost var log := View();
        var scratch := Format(text);
        if logPos + |text| >= BUFFER {
          Flush();
        }
        inside := |text| <= scratch.Length && logPos + |text| <= logBuff.Length;
        if inside {
          ghost var waiting := Pending();
          Append(scratch, |text|);
          assert Kept(text)[..|text|] == Kept(text);
          PutTwice(files, path, waiting, Kept(text));
        }
      }
    }

    method LogClose() returns (r: int)
      requires Valid()
      modifies this`logFd, this`logPos, this`files, logBuff
      ensures Valid() && View() == Step(old(View()), Call.LogClose)
      ensures logPos == 0 && files == View().files
      ensures r == 0
    {
      r := 0;
      if logFd > 0 {
        if logPos != 0 {
          Flush();
        }
        PutNothing(files, path);
        logFd := 0;
      }
    }

    /** One call. */
    method PerformOne(call: Call) returns (ok: bool)
      requires Valid()
      modifies this`logFd, this`logPos, this`path, this`files, logBuff
      ensures Valid() && (ok <==> !Strays(old(View()), call))
      ensures View() == if ok then Step(old(View()), call) else old(View())
    {
      hide Step, Put, Kept;
      ok := true;
      match call {
        case LogOpen(p, fd) => var _ := LogOpen(p, fd);
        case LogWrite(text) =>
          var r;
          r, ok := LogWrite(text);
        case LogClose => var _ := LogClose();
      }
    }

    /** While the log is not open, nothing is waiting. */
    lemma AllInFile()
      requires Valid()
      ensures !View().mode.Open? ==> files == View().files
    {
    }

    /** Any run of calls leaves what the log without a buffer would have, but for what is waiting.
        It goes through exactly when no message longer than the scratch buffer meets an open log. */
    method Perform(calls: seq<Call>) returns (done: nat)
      requires Valid()
      modifies this`logFd, this`logPos, this`path, this`files, logBuff
      ensures done <= |calls| && (done == |calls| <==> Safe(old(View()), calls))
      ensures Valid() && View() == Run(old(View()), calls[..done])
      ensures !View().mode.Open? ==> files == Run(old(View()), calls[..done]).files
      decreases |calls|
    {
      ghost var log := View();
      hide Run, Step, Strays, Valid, View, Safe;
      SafeMore(log, calls);
      done := 0;
      if calls != [] {
        var last := |calls| - 1;
        done := Perform(calls[..last]);
        Prefixes(calls, done);
        if done == last {
          var ok := PerformOne(calls[last]);
          done := if ok then done + 1 else done;
        }
      }
      AllInFile();
    }
  }

  lemma Prefixes(calls: seq<Call>, n: nat)
    requires n < |calls|
    ensures calls[..|calls| - 1][..n] == calls[..n] && calls[..|calls|] == calls
  {
  }

  lemma SafeMore(log: Log, calls: seq<Call>)
    ensures calls == [] ==> Safe(log, calls) && Run(log, calls[..0]) == log
    ensures calls != [] ==>
              var init, last := calls[..|calls| - 1], calls[|calls| - 1];
              && (Safe(log, calls) <==> Safe(log, init) && !Strays(Run(log, init), last))
              && Run(log, calls) == Step(Run(log, init), last)
  {
    hide Strays, Step;
    if calls != [] {
      var init, last := calls[..|calls| - 1], calls[|calls| - 1];
      assert forall n :: 0 <= n < |init| ==> init[..n] == calls[..n];
      if Safe(log, calls) {
        assert !Strays(Run(log, calls[..|init|]), calls[|init|]);
      }
    }
  }
}
