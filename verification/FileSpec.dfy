/** One file as a byte sequence with any number of open offsets: what each call does, what every
    run keeps, and that the content is always exactly what the writes put there. */
module FileSpec {
  import opened Words

  const MAX32: int := 0xFFFF_FFFF
  const BLOCK: int := 0x200
  const LAST_FIT: int := 0xFFFF_FE00
  const NO_READ: int := 0xDEAD_BEEF
  const INVALID: int := 0x8001_0016 - 0x1_0000_0000

  const SEEK_SET := 0
  const SEEK_CUR := 1
  const SEEK_END := 2

  function Min(a: int, b: int): int { if a <= b then a else b }
  function Max(a: int, b: int): int { if a >= b then a else b }

  /** A size rounded up to whole blocks. */
  function BlockAlign(n: nat): (r: nat) {
    (n + (BLOCK - 1)) / BLOCK * BLOCK
  }

  /** What a value becomes in an unsigned 32-bit size. */
  function Low32(n: nat): nat { n % 0x1_0000_0000 }

  /** What an unsigned count becomes in the signed 32-bit result. */
  function Signed32(n: nat): int
    requires n <= MAX32
  {
    if n < 0x8000_0000 then n else n - 0x1_0000_0000
  }

  /** What a sum becomes in a signed 64-bit offset. */
  function Signed64(n: int): int {
    (n + 0x8000_0000_0000_0000) % 0x1_0000_0000_0000_0000 - 0x8000_0000_0000_0000
  }

  /** The result is the signed 32-bit number that is congruent to the count. */
  lemma Signed32Is(n: nat)
    requires n <= MAX32
    ensures -0x8000_0000 <= Signed32(n) < 0x8000_0000 && (n - Signed32(n)) % 0x1_0000_0000 == 0
    ensures n < 0x8000_0000 ==> Signed32(n) == n
  {
  }

  /** And the 64-bit offset the one congruent to the sum. */
  lemma Signed64Is(n: int)
    ensures -0x8000_0000_0000_0000 <= Signed64(n) < 0x8000_0000_0000_0000
    ensures (n - Signed64(n)) % 0x1_0000_0000_0000_0000 == 0
    ensures Int64(n) ==> Signed64(n) == n
  {
  }

  lemma BlockAlignFacts(n: nat)
    ensures n <= BlockAlign(n) < n + 0x200 && BlockAlign(n) % 0x200 == 0
    ensures n % BLOCK == 0 ==> BlockAlign(n) == n
  {
  }

  lemma BlockAlignMonotonic(a: nat, b: nat)
    requires a <= b
    ensures BlockAlign(a) <= BlockAlign(b)
  {
  }

  /** The buffer asked for when a file grows has room for the file exactly when the file ends at
      or below 0xFFFFFE00: above that the rounded size no longer fits in 32 bits. */
  lemma RoomIff(n: nat)
    requires n <= 2 * MAX32
    ensures n <= Low32(BlockAlign(n)) <==> n <= LAST_FIT
  {
    BlockAlignFacts(n);
    if n <= LAST_FIT {
      BlockAlignMonotonic(n, LAST_FIT);
    }
  }

  lemma Low32Same(n: nat)
    requires n <= MAX32
    ensures Low32(n) == n
  {
  }

  // ---------- the calls, on contents

  function Splice(c: seq<byte>, at: nat, d: seq<byte>): (r: seq<byte>)
    requires at <= |c|
    ensures |r| == Max(|c|, at + |d|)
    ensures forall i :: 0 <= i < |r| ==> r[i] == if at <= i < at + |d| then d[i - at] else c[i]
  {
    c[..at] + d + (if at + |d| <= |c| then c[at + |d|..] else [])
  }

  /** Up to `n` bytes from `at` on, as many as there are. */
  function Slice(c: seq<byte>, at: nat, n: nat): (r: seq<byte>)
    requires at <= |c|
    ensures |r| == if n <= |c| - at then n else |c| - at
    ensures forall i :: 0 <= i < |r| ==> r[i] == c[at + i]
  {
    c[at..Min(at + n, |c|)]
  }

  predicate Grows(size: nat, n: nat) {
    BlockAlign(size + n) > BlockAlign(size)
  }

  /** A write needs memory exactly when there is a block boundary in the bytes it would append. */
  lemma GrowsIff(size: nat, n: nat)
    ensures Grows(size, n) <==> exists k: nat :: size <= 0x200 * k < size + n
  {
    BlockAlignFacts(size);
    BlockAlignFacts(size + n);
    var k := BlockAlign(size) / 0x200;
    assert BlockAlign(size) == 0x200 * k;
    hide BlockAlign;
    if Grows(size, n) {
      assert size <= 0x200 * k < size + n by { BlockAlignLeast(size + n, k); }
    }
    if l: nat :| size <= 0x200 * l < size + n {
      BlockAlignLeast(size, l);
    }
  }

  /** Rounding up gives the least boundary that is not below. */
  lemma BlockAlignLeast(n: nat, k: nat)
    ensures n <= 0x200 * k <==> BlockAlign(n) <= 0x200 * k
  {
    BlockAlignFacts(n);
    hide BlockAlign;
    var j := BlockAlign(n) / 0x200;
    assert BlockAlign(n) == 0x200 * j;
    if n <= 0x200 * k {
      assert 0x200 * j < 0x200 * (k + 1);
    }
  }

  /** The buffer's length after the growth step of a write of `n` bytes to a file of `size` bytes in
      a buffer of `room` bytes; the length asked for is cut to 32 bits. */
  function NewRoom(size: nat, room: nat, n: nat): nat {
    if Grows(size, n) then Low32(BlockAlign(size + n)) else room
  }

  /** Both copies of a write stay in their buffers: the file moved into the larger buffer, and the
      data put at `at`. */
  predicate Fits(size: nat, room: nat, at: int, n: nat) {
    && (Grows(size, n) ==> size <= NewRoom(size, room, n))
    && 0 <= at && at + n <= NewRoom(size, room, n)
  }

  /** Above 0xFFFFFE00 the rounded size loses its top bit. */
  lemma Wraps(n: nat)
    requires LAST_FIT < n <= LAST_FIT + MAX32
    ensures Low32(BlockAlign(n)) == BlockAlign(n) - 0x1_0000_0000
  {
    BlockAlignFacts(n);
    BlockAlignMonotonic(LAST_FIT + 1, n);
  }

  /** At an offset that is not past the end, the copies of a write stay in their buffers exactly
      when the offset is not negative and the write leaves the file at or below 0xFFFFFE00. */
  lemma FitsIff(size: nat, room: nat, at: int, n: nat)
    requires n <= MAX32 && at <= size && BlockAlign(size) <= room <= LAST_FIT
    ensures Fits(size, room, at, n) <==> 0 <= at && size + n <= LAST_FIT
  {
    BlockAlignFacts(size);
    BlockAlignFacts(size + n);
    hide BlockAlign, Low32;
    if size + n <= LAST_FIT {
      BlockAlignMonotonic(size + n, LAST_FIT);
      BlockAlignFacts(LAST_FIT);
      Low32Same(BlockAlign(size + n));
    } else {
      Wraps(size + n);
    }
  }

  /** Every write at an offset stays in the buffer exactly when the offset is in the file: growth is
      computed from the size, not from the offset. */
  lemma EveryWriteFitsIff(size: nat, at: int)
    requires size + BLOCK <= LAST_FIT
    ensures (forall n: nat :: size + n <= LAST_FIT ==> Fits(size, BlockAlign(size), at, n)) <==> 0 <= at <= size
  {
    BlockAlignFacts(size);
    BlockAlignMonotonic(size, LAST_FIT);
    if 0 <= at <= size {
      forall n: nat | size + n <= LAST_FIT ensures Fits(size, BlockAlign(size), at, n) {
        FitsIff(size, BlockAlign(size), at, n);
      }
    } else {
      var n := BlockAlign(size) - size;
      BlockAlignFacts(size + n);
      assert !Fits(size, BlockAlign(size), at, n);
    }
  }

  /** `r` is `c` with `d` laid over it from `at` on. */
  predicate Overlaid(c: seq<byte>, r: seq<byte>, at: nat, d: seq<byte>) {
    && |r| == Max(|c|, at + |d|)
    && (forall i :: at <= i < at + |d| ==> r[i] == d[i - at])
    && (forall i :: 0 <= i < |c| && !(at <= i < at + |d|) ==> r[i] == c[i])
  }

  /** Inside the file that leaves nothing open. */
  lemma OverlaidIsSplice(c: seq<byte>, r: seq<byte>, at: nat, d: seq<byte>)
    requires at <= |c|
    ensures Overlaid(c, r, at, d) <==> r == Splice(c, at, d)
  {
  }

  /** Content and return value of a write of `d` at `at`. */
  function DoWrite(c: seq<byte>, at: nat, d: seq<byte>, memOk: bool): (seq<byte>, int)
    requires at <= |c| && |d| <= MAX32
  {
    if Grows(|c|, |d|) && !memOk then (c, -2) else (Splice(c, at, d), Signed32(|d|))
  }

  /** The new offset; the old one and an error if the target is not in the file. */
  function DoSeek(size: nat, off: nat, delta: int, whence: int): (int, int) {
    if whence !in {SEEK_SET, SEEK_CUR, SEEK_END} then (off, INVALID)
    else
      var target := delta + if whence == SEEK_SET then 0 else if whence == SEEK_CUR then off else size;
      if 0 <= target <= size then (target, target) else (off, INVALID)
  }

  // ---------- a file with its open offsets

  datatype File<K> = File(content: seq<byte>, offs: map<K, nat>)

  /** A call on a file.  `memOk` says whether the memory a call asks for can be had, `junk` what a
      new buffer holds before anything is written to it. */
  datatype Call<K> =
    | Open(key: K, append: bool, memOk: bool)
    | Close(key: K)
    | Write(key: K, data: seq<byte>, memOk: bool)
    | Read(key: K, count: nat)
    | Seek(key: K, delta: int, whence: int)
    | Pwrite(key: K, at: int, data: seq<byte>, memOk: bool)
    | Pread(key: K, at: int, count: nat)
    | SetSize(size: int, junk: seq<byte>, memOk: bool)

  datatype Reply = Reply(res: int, data: seq<byte>)

  function Code(res: int): Reply { Reply(res, []) }

  function Got(data: seq<byte>): Reply
    requires |data| <= MAX32
  {
    Reply(Signed32(|data|), data)
  }

  /** The file is within its largest size and no open offset lies past its end. */
  ghost predicate InFile<K>(f: File<K>) {
    |f.content| <= LAST_FIT && forall k :: k in f.offs ==> f.offs[k] <= |f.content|
  }

  predicate Int64(n: int) { -0x8000_0000_0000_0000 <= n < 0x8000_0000_0000_0000 }

  /** What the virtual file system guarantees about a call: a handle that exists, or is new, and
      copies that stay in their buffers.  A size is set to whole blocks, to nothing or to no less
      than there is, and no open offset lies past it. */
  ghost predicate CallOk<K>(f: File<K>, c: Call<K>) {
    match c
    case Open(k, _, _) => k !in f.offs
    case Close(k) => k in f.offs
    case Write(k, d, _) => k in f.offs && |f.content| + |d| <= LAST_FIT
    case Read(k, n) => k in f.offs && n <= MAX32
    case Seek(k, delta, _) => k in f.offs && Int64(delta)
    case Pwrite(k, at, d, _) => k in f.offs && 0 <= at && |f.content| + |d| <= LAST_FIT
    case Pread(k, at, n) => k in f.offs && 0 <= at && n <= MAX32
    case SetSize(n, junk, _) =>
      0 <= n <= MAX32 ==>
        n % BLOCK == 0 && (n == 0 || |f.content| <= n) && |junk| == n && forall k :: k in f.offs ==> f.offs[k] <= n
  }

  /** What a call does to the file, and what it returns. */
  ghost function Exec<K>(f: File<K>, c: Call<K>): (File<K>, Reply)
    requires InFile(f) && CallOk(f, c)
  {
    match c
    case Open(k, append, memOk) =>
      if memOk then (f.(offs := f.offs[k := if append then |f.content| else 0]), Code(0)) else (f, Code(-1))
    case Close(k) =>
      (f.(offs := f.offs - {k}), Code(0))
    case Write(k, d, memOk) =>
      var (content, res) := DoWrite(f.content, f.offs[k], d, memOk);
      (File(content, if Grows(|f.content|, |d|) && !memOk then f.offs else f.offs[k := f.offs[k] + |d|]), Code(res))
    case Read(k, n) =>
      if n == NO_READ then (f, Code(-2))
      else
        var got := Slice(f.content, f.offs[k], n);
        (f.(offs := f.offs[k := f.offs[k] + |got|]), Got(got))
    case Seek(k, delta, whence) =>
      var (off, res) := DoSeek(|f.content|, f.offs[k], delta, whence);
      (f.(offs := f.offs[k := off]), Code(res))
    case Pwrite(_, at, d, memOk) =>
      if at > |f.content| then (f, Code(-1))
      else
        var (content, res) := DoWrite(f.content, at, d, memOk);
        (f.(content := content), Code(res))
    case Pread(_, at, n) =>
      if at > |f.content| then (f, Code(-1)) else (f, Got(Slice(f.content, at, n)))
    case SetSize(n, junk, memOk) =>
      if n < 0 || n > MAX32 then (f, Code(-1))
      else if n == 0 then (f.(content := []), Code(0))
      else if !memOk then (f, Code(-2))
      else (f.(content := f.content + junk[|f.content|..]), Code(0))
  }

  lemma ExecInFile<K>(f: File<K>, c: Call<K>)
    requires InFile(f) && CallOk(f, c)
    ensures InFile(Exec(f, c).0)
  {
  }

  ghost function After<K>(f: File<K>, c: Call<K>): (g: File<K>)
    requires InFile(f) && CallOk(f, c)
    ensures InFile(g)
  {
    ExecInFile(f, c);
    Exec(f, c).0
  }

  ghost predicate CallsOk<K>(f: File<K>, cs: seq<Call<K>>)
    requires InFile(f)
    decreases |cs|
  {
    cs == [] || (CallOk(f, cs[0]) && CallsOk(After(f, cs[0]), cs[1..]))
  }

  ghost function RunFile<K>(f: File<K>, cs: seq<Call<K>>): (g: File<K>)
    requires InFile(f) && CallsOk(f, cs)
    ensures InFile(g)
    decreases |cs|
  {
    if cs == [] then f else RunFile(After(f, cs[0]), cs[1..])
  }

  /** The replies of a run. */
  ghost function Replies<K>(f: File<K>, cs: seq<Call<K>>): (rs: seq<Reply>)
    requires InFile(f) && CallsOk(f, cs)
    ensures |rs| == |cs|
    decreases |cs|
  {
    if cs == [] then [] else [Exec(f, cs[0]).1] + Replies(After(f, cs[0]), cs[1..])
  }

  // ---------- the content is what the writes put there

  datatype Put = Put(at: nat, data: seq<byte>)

  /** The puts that make up the content after one more call: a write that takes effect is one more,
      a file cut to nothing starts over, and a file made longer gets what the new buffer held. */
  ghost function PutsAfter<K>(f: File<K>, done: seq<Put>, c: Call<K>): seq<Put>
    requires InFile(f) && CallOk(f, c)
  {
    match c
    case Write(k, d, memOk) => if Grows(|f.content|, |d|) && !memOk then done else done + [Put(f.offs[k], d)]
    case Pwrite(_, at, d, memOk) =>
      if at > |f.content| || (Grows(|f.content|, |d|) && !memOk) then done else done + [Put(at, d)]
    case SetSize(n, junk, memOk) =>
      if n < 0 || n > MAX32 then done
      else if n == 0 then []
      else if !memOk then done
      else done + [Put(|f.content|, junk[|f.content|..])]
    case _ => done
  }

  ghost function Puts<K>(f: File<K>, done: seq<Put>, cs: seq<Call<K>>): seq<Put>
    requires InFile(f) && CallsOk(f, cs)
    decreases |cs|
  {
    if cs == [] then done else Puts(After(f, cs[0]), PutsAfter(f, done, cs[0]), cs[1..])
  }

  predicate Covers(p: Put, i: int) {
    p.at <= i < p.at + |p.data|
  }

  /** The last put over position `i`, if there is one. */
  ghost function Last(ps: seq<Put>, i: int): (k: int)
    ensures -1 <= k < |ps|
    ensures k >= 0 ==> Covers(ps[k], i)
    ensures forall j :: k < j < |ps| ==> !Covers(ps[j], i)
  {
    if ps == [] then -1
    else if Covers(ps[|ps| - 1], i) then |ps| - 1
    else Last(ps[..|ps| - 1], i)
  }

  /** What a list of puts makes of an empty file: each byte is the one put there last, and every
      position below the end has been put. */
  ghost predicate MadeBy(c: seq<byte>, ps: seq<Put>) {
    && (forall i :: 0 <= i < |c| ==> Last(ps, i) >= 0 && c[i] == ps[Last(ps, i)].data[i - ps[Last(ps, i)].at])
    && (forall p :: p in ps ==> p.at + |p.data| <= |c|)
  }

  lemma LastAfter(ps: seq<Put>, p: Put, i: int)
    ensures Last(ps + [p], i) == if Covers(p, i) then |ps| else Last(ps, i)
  {
    assert (ps + [p])[..|ps|] == ps;
  }

  lemma MadeByOneMore(c: seq<byte>, ps: seq<Put>, p: Put)
    requires MadeBy(c, ps) && p.at <= |c|
    ensures MadeBy(Splice(c, p.at, p.data), ps + [p])
  {
    var r := Splice(c, p.at, p.data);
    var qs := ps + [p];
    forall i | 0 <= i < |r|
      ensures Last(qs, i) >= 0 && r[i] == qs[Last(qs, i)].data[i - qs[Last(qs, i)].at]
    {
      LastAfter(ps, p, i);
    }
  }

  /** Over every run of calls the content is made by exactly the puts that took effect: the last one
      wins at each position and there are no holes. */
  lemma {:induction false} LastWriteWins<K>(f: File<K>, done: seq<Put>, cs: seq<Call<K>>)
    requires InFile(f) && CallsOk(f, cs) && MadeBy(f.content, done)
    ensures MadeBy(RunFile(f, cs).content, Puts(f, done, cs))
    decreases |cs|
  {
    hide MadeBy, CallOk, Exec, PutsAfter;
    if cs != [] {
      StepMakes(f, done, cs[0]);
      LastWriteWins(After(f, cs[0]), PutsAfter(f, done, cs[0]), cs[1..]);
    }
  }

  lemma StepMakes<K>(f: File<K>, done: seq<Put>, c: Call<K>)
    requires InFile(f) && CallOk(f, c) && MadeBy(f.content, done)
    ensures MadeBy(After(f, c).content, PutsAfter(f, done, c))
  {
    var now, g := PutsAfter(f, done, c), After(f, c);
    StepSplices(f, done, c);
    if now != done && now != [] {
      hide MadeBy, Splice, Exec;
      MadeByOneMore(f.content, done, now[|done|]);
    }
  }

  /** A put is spliced into the content. */
  lemma StepSplices<K>(f: File<K>, done: seq<Put>, c: Call<K>)
    requires InFile(f) && CallOk(f, c)
    ensures var now, g := PutsAfter(f, done, c), After(f, c).content;
            || (now == done && g == f.content)
            || (now == [] && g == [])
            || (|now| == |done| + 1 && now == done + [now[|done|]] && now[|done|].at <= |f.content|
                && g == Splice(f.content, now[|done|].at, now[|done|].data))
  {
    if c.SetSize? && 0 < c.size <= MAX32 && c.memOk {
      var tail := c.junk[|f.content|..];
      assert Splice(f.content, |f.content|, tail) == f.content + tail;
    }
  }
}
