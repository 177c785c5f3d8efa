/** What the replies of a file mean to its user: bytes read are the bytes put, offsets are where seeks
    and reads have left them, and what has been written can be read back. */
module FileLaws {
  import opened Words
  import opened FileSpec

  ghost function ReplyTo<K>(f: File<K>, c: Call<K>): Reply
    requires InFile(f) && CallOk(f, c)
  {
    Exec(f, c).1
  }

  // ---------- reading

  /** A read returns the bytes at its offset, as many as it asks for and there are, and moves its offset
      past them and nothing else. */
  lemma ReadGets<K>(g: File<K>, k: K, n: nat)
    requires InFile(g) && k in g.offs && n <= MAX32 && n != 0xDEAD_BEEF
    ensures var off, r := g.offs[k], ReplyTo(g, Call.Read(k, n));
            && |r.data| == (if n <= |g.content| - off then n else |g.content| - off)
            && (forall i :: 0 <= i < |r.data| ==> r.data[i] == g.content[off + i])
            && (|r.data| < 0x8000_0000 ==> r.res == |r.data|)
            && After(g, Call.Read(k, n)) == g.(offs := g.offs[k := off + |r.data|])
  {
  }

  /** A positional read likewise, moving nothing. */
  lemma PreadGets<K>(g: File<K>, k: K, at: nat, n: nat)
    requires InFile(g) && k in g.offs && n <= MAX32 && at <= |g.content|
    ensures var r := ReplyTo(g, Call.Pread(k, at, n));
            && |r.data| == (if n <= |g.content| - at then n else |g.content| - at)
            && (forall i :: 0 <= i < |r.data| ==> r.data[i] == g.content[at + i])
            && (|r.data| < 0x8000_0000 ==> r.res == |r.data|)
            && After(g, Call.Pread(k, at, n)) == g
  {
  }

  /** Each byte is the one put last at its position. */
  ghost predicate PutLast(data: seq<byte>, ps: seq<Put>, off: nat) {
    forall i :: 0 <= i < |data| ==>
      var l := Last(ps, off + i); l >= 0 && data[i] == ps[l].data[off + i - ps[l].at]
  }

  lemma PiecePutLast(c: seq<byte>, ps: seq<Put>, data: seq<byte>, off: nat)
    requires MadeBy(c, ps) && off + |data| <= |c| && forall i :: 0 <= i < |data| ==> data[i] == c[off + i]
    ensures PutLast(data, ps, off)
  {
    hide Last;
  }

  /** After any run of calls, a read returns as many bytes as it asks for and there are, each of them
      the byte put last at its position, and moves its offset past them and no other. */
  lemma ReadsLastPut<K>(f: File<K>, done: seq<Put>, cs: seq<Call<K>>, k: K, n: nat)
    requires InFile(f) && CallsOk(f, cs) && MadeBy(f.content, done)
    requires k in RunFile(f, cs).offs && n <= MAX32 && n != 0xDEAD_BEEF
    ensures var g, ps := RunFile(f, cs), Puts(f, done, cs);
            var off, r := g.offs[k], ReplyTo(g, Call.Read(k, n));
            && |r.data| == (if n <= |g.content| - off then n else |g.content| - off)
            && (|r.data| < 0x8000_0000 ==> r.res == |r.data|)
            && PutLast(r.data, ps, off)
            && After(g, Call.Read(k, n)) == g.(offs := g.offs[k := off + |r.data|])
  {
    hide RunFile, Puts, Exec, After, ReplyTo, MadeBy, CallsOk, PutLast;
    LastWriteWins(f, done, cs);
    var g := RunFile(f, cs);
    ReadGets(g, k, n);
    PiecePutLast(g.content, Puts(f, done, cs), ReplyTo(g, Call.Read(k, n)).data, g.offs[k]);
  }

  /** A positional read likewise. */
  lemma PreadsLastPut<K>(f: File<K>, done: seq<Put>, cs: seq<Call<K>>, k: K, at: nat, n: nat)
    requires InFile(f) && CallsOk(f, cs) && MadeBy(f.content, done)
    requires k in RunFile(f, cs).offs && n <= MAX32 && at <= |RunFile(f, cs).content|
    ensures var g, ps := RunFile(f, cs), Puts(f, done, cs);
            var r := ReplyTo(g, Call.Pread(k, at, n));
            && |r.data| == (if n <= |g.content| - at then n else |g.content| - at)
            && (|r.data| < 0x8000_0000 ==> r.res == |r.data|)
            && PutLast(r.data, ps, at)
            && After(g, Call.Pread(k, at, n)) == g
  {
    hide RunFile, Puts, Exec, After, ReplyTo, MadeBy, CallsOk, PutLast;
    LastWriteWins(f, done, cs);
    var g := RunFile(f, cs);
    PreadGets(g, k, at, n);
    PiecePutLast(g.content, Puts(f, done, cs), ReplyTo(g, Call.Pread(k, at, n)).data, at);
  }

  /** What has been written is read back: going back by as many bytes and reading them returns the data,
      and the offset is where the write left it. */
  lemma WrittenIsReadBack<K>(f: File<K>, k: K, d: seq<byte>)
    requires InFile(f) && k in f.offs && |f.content| + |d| <= LAST_FIT && |d| != 0xDEAD_BEEF
    ensures CallOk(f, Call.Write(k, d, true))
    ensures var g := After(f, Call.Write(k, d, true));
            && CallOk(g, Call.Seek(k, -|d|, 1))
            && var h := After(g, Call.Seek(k, -|d|, 1));
               && CallOk(h, Call.Read(k, |d|))
               && ReplyTo(h, Call.Read(k, |d|)).data == d && After(h, Call.Read(k, |d|)) == g
  {
    var g := After(f, Call.Write(k, d, true));
    assert g.offs == f.offs[k := f.offs[k] + |d|];
    var h := After(g, Call.Seek(k, -|d|, 1));
    assert h == g.(offs := f.offs);
    assert Slice(h.content, h.offs[k], |d|) == d;
  }

  /** A positional write is read back at its position, through any handle. */
  lemma PutIsReadBack<K>(f: File<K>, k: K, at: nat, d: seq<byte>, j: K)
    requires InFile(f) && k in f.offs && j in f.offs && at <= |f.content| && |f.content| + |d| <= LAST_FIT
    ensures CallOk(f, Call.Pwrite(k, at, d, true))
    ensures var g := After(f, Call.Pwrite(k, at, d, true));
            && CallOk(g, Call.Pread(j, at, |d|))
            && ReplyTo(g, Call.Pread(j, at, |d|)).data == d && After(g, Call.Pread(j, at, |d|)) == g
  {
    assert Slice(After(f, Call.Pwrite(k, at, d, true)).content, at, |d|) == d;
  }

  /** A write with memory returns how many bytes it has written; without memory it is refused exactly
      when a block boundary lies in the bytes it would append. */
  lemma WriteReply<K>(f: File<K>, k: K, d: seq<byte>, memOk: bool)
    requires InFile(f) && k in f.offs && |f.content| + |d| <= LAST_FIT && |d| < 0x8000_0000
    ensures var r, bound := ReplyTo(f, Call.Write(k, d, memOk)).res,
                            exists b: nat :: |f.content| <= 0x200 * b < |f.content| + |d|;
            r == if bound && !memOk then -2 else |d|
  {
    GrowsIff(|f.content|, |d|);
  }

  // ---------- offsets

  /** Seeking by nothing tells where the end is and where the offset is. */
  lemma SeekTells<K>(f: File<K>, k: K)
    requires InFile(f) && k in f.offs
    ensures CallOk(f, Call.Seek(k, 0, 2)) && CallOk(f, Call.Seek(k, 0, 1))
    ensures ReplyTo(f, Call.Seek(k, 0, 2)).res == |f.content|
    ensures After(f, Call.Seek(k, 0, 2)) == f.(offs := f.offs[k := |f.content|])
    ensures ReplyTo(f, Call.Seek(k, 0, 1)).res == f.offs[k] && After(f, Call.Seek(k, 0, 1)) == f
  {
    assert f.offs[k := f.offs[k]] == f.offs;
  }

  /** A seek from the start goes to the position, if that is in the file. */
  lemma SeekSets<K>(f: File<K>, k: K, at: nat)
    requires InFile(f) && k in f.offs && at <= |f.content|
    ensures CallOk(f, Call.Seek(k, at, 0)) && ReplyTo(f, Call.Seek(k, at, 0)).res == at
    ensures After(f, Call.Seek(k, at, 0)) == f.(offs := f.offs[k := at])
  {
  }

  /** Two seeks from where the offset is are the seek by their sum, as long as both stay in the file. */
  lemma SeeksAdd<K>(f: File<K>, k: K, a: int, b: int)
    requires InFile(f) && k in f.offs && 0 <= f.offs[k] + a <= |f.content| && 0 <= f.offs[k] + a + b <= |f.content|
    ensures CallOk(f, Call.Seek(k, a, 1)) && CallOk(After(f, Call.Seek(k, a, 1)), Call.Seek(k, b, 1))
    ensures CallOk(f, Call.Seek(k, a + b, 1))
    ensures var g := After(f, Call.Seek(k, a, 1));
            && After(g, Call.Seek(k, b, 1)) == After(f, Call.Seek(k, a + b, 1))
            && ReplyTo(g, Call.Seek(k, b, 1)) == ReplyTo(f, Call.Seek(k, a + b, 1))
  {
    assert f.offs[k := f.offs[k] + a][k := f.offs[k] + a + b] == f.offs[k := f.offs[k] + a + b];
  }

  /** A seek out of the file, or from no known place, is refused and moves nothing. */
  lemma SeekRefused<K>(f: File<K>, k: K, delta: int, whence: int)
    requires InFile(f) && k in f.offs && Int64(delta)
    requires var from := if whence == 0 then 0 else if whence == 1 then f.offs[k] else |f.content|;
             whence !in {0, 1, 2} || !(0 <= from + delta <= |f.content|)
    ensures ReplyTo(f, Call.Seek(k, delta, whence)).res == 0x8001_0016 - 0x1_0000_0000
    ensures After(f, Call.Seek(k, delta, whence)) == f
  {
    assert f.offs[k := f.offs[k]] == f.offs;
  }

  /** Whatever is done through other handles, an offset is moved only by calls on its own handle. */
  lemma {:induction false} OffsetsAreOwn<K>(f: File<K>, cs: seq<Call<K>>, k: K)
    requires InFile(f) && CallsOk(f, cs) && k in f.offs
    requires forall c :: c in cs ==> c.SetSize? || c.Pwrite? || c.Pread? || c.key != k
    ensures k in RunFile(f, cs).offs && RunFile(f, cs).offs[k] == f.offs[k]
    decreases |cs|
  {
    if cs != [] {
      OffsetStays(f, cs[0], k);
      OffsetsAreOwn(After(f, cs[0]), cs[1..], k);
    }
  }

  lemma OffsetStays<K>(f: File<K>, c: Call<K>, k: K)
    requires InFile(f) && CallOk(f, c) && k in f.offs && (c.SetSize? || c.Pwrite? || c.Pread? || c.key != k)
    ensures k in After(f, c).offs && After(f, c).offs[k] == f.offs[k]
  {
  }

  /** A sequence of reads through one handle, with nothing written meanwhile, returns the content from
      the offset on, piece by piece. */
  lemma {:induction false} ReadsJoin<K>(f: File<K>, k: K, ns: seq<nat>)
    requires InFile(f) && k in f.offs && forall n :: n in ns ==> n <= MAX32 && n != 0xDEAD_BEEF
    ensures var (g, all) := ReadAll(f, k, ns);
            && g.content == f.content && k in g.offs && f.offs[k] <= g.offs[k] <= |f.content|
            && all == f.content[f.offs[k]..g.offs[k]]
    decreases |ns|
  {
    if ns != [] {
      assert ns[0] in ns && forall n :: n in ns[1..] ==> n in ns;
      ReadPiece(f, k, ns[0]);
      hide Exec, ReplyTo, After, InFile, CallOk;
      var c := Call.Read(k, ns[0]);
      var g := After(f, c);
      ReadsJoin(g, k, ns[1..]);
      var (h, rest) := ReadAll(g, k, ns[1..]);
      PiecesJoin(f.content, f.offs[k], g.offs[k], h.offs[k]);
    }
  }

  lemma ReadPiece<K>(f: File<K>, k: K, n: nat)
    requires InFile(f) && k in f.offs && n <= MAX32 && n != 0xDEAD_BEEF
    ensures CallOk(f, Call.Read(k, n))
    ensures var g := After(f, Call.Read(k, n));
            && InFile(g) && g.content == f.content && k in g.offs && f.offs[k] <= g.offs[k] <= |f.content|
            && ReplyTo(f, Call.Read(k, n)).data == f.content[f.offs[k]..g.offs[k]]
  {
    ReadGets(f, k, n);
    hide Exec, ReplyTo, After;
    var d := ReplyTo(f, Call.Read(k, n)).data;
    assert d == f.content[f.offs[k]..f.offs[k] + |d|];
  }

  lemma PiecesJoin(c: seq<byte>, i: nat, j: nat, k: nat)
    requires i <= j <= k <= |c|
    ensures c[i..j] + c[j..k] == c[i..k]
  {
  }

  /** What reads of these lengths return, put together. */
  ghost function ReadAll<K>(f: File<K>, k: K, ns: seq<nat>): (File<K>, seq<byte>)
    requires InFile(f) && k in f.offs && forall n :: n in ns ==> n <= MAX32
    decreases |ns|
  {
    if ns == [] then (f, [])
    else
      assert ns[0] in ns && forall n :: n in ns[1..] ==> n in ns;
      var c := Call.Read(k, ns[0]);
      var (g, rest) := ReadAll(After(f, c), k, ns[1..]);
      (g, ReplyTo(f, c).data + rest)
  }
}
