/**
 * What a disk with a redo log means.  The log region starts at sector start: a header block that
 * lists n home sectors, then the n logged blocks.  Home is everything below start.
 */
module LogSpec {
  import opened Common
  import opened Blocks

  const LOGSIZE: nat := 10

  function HeadN(h: Block): nat { GetWord(h, 0) }

  function HeadSector(h: Block, i: nat): nat
    requires i < LOGSIZE
  {
    GetWord(h, i + 1)
  }

  /** Where the header has its count and its sectors. */
  lemma HeadBytes(h: Block, i: nat)
    requires i < LOGSIZE
    ensures HeadN(h) == LongAt(h, 0) && HeadSector(h, i) == LongAt(h, 4 + 4 * i)
  {
  }

  ghost predicate Fits(d: Disk, start: nat, size: nat)
  {
    0 < start && 0 < size && start + size <= |d| < UINT
  }

  /** The header names at most size - 1 distinct home sectors. */
  ghost predicate LogOk(d: Disk, start: nat, size: nat)
  {
    && Fits(d, start, size)
    && HeadN(d[start]) <= LOGSIZE && HeadN(d[start]) < size
    && (forall i | 0 <= i < HeadN(d[start]) :: HeadSector(d[start], i) < start)
    && (forall i, j | 0 <= i < j < HeadN(d[start]) :: HeadSector(d[start], i) != HeadSector(d[start], j))
  }

  function HeadList(h: Block, n: nat): (r: seq<nat>)
    requires n <= LOGSIZE
    ensures |r| == n && forall i | 0 <= i < n :: r[i] == HeadSector(h, i)
  {
    seq(n, i requires 0 <= i < n => HeadSector(h, i))
  }

  /** Is s listed at an index from lo up to hi? */
  ghost predicate Has(sectors: seq<nat>, lo: nat, hi: nat, s: nat)
    requires hi <= |sectors|
  {
    exists j :: lo <= j < hi && sectors[j] == s
  }

  lemma HasSame(a: seq<nat>, b: seq<nat>, lo: nat, hi: nat)
    requires hi <= |a| && hi <= |b| && forall j | lo <= j < hi :: a[j] == b[j]
    ensures forall s :: Has(a, lo, hi, s) <==> Has(b, lo, hi, s)
  {
    forall s | Has(b, lo, hi, s) ensures Has(a, lo, hi, s) {
      var j :| lo <= j < hi && b[j] == s;
      assert a[j] == s;
    }
  }

  /** Home after the first k logged blocks have been copied to the sectors listed for them. */
  ghost function Install(home: Disk, sectors: seq<nat>, blocks: Disk, k: nat): (r: Disk)
    requires k <= |sectors| && k <= |blocks|
    requires forall i | 0 <= i < k :: sectors[i] < |home|
    ensures |r| == |home|
  {
    if k == 0 then home else Install(home, sectors, blocks, k - 1)[sectors[k - 1] := blocks[k - 1]]
  }

  /** What recovery makes of home: the blocks the header lists, replayed. */
  ghost function Recovered(d: Disk, start: nat, size: nat): Disk
    requires LogOk(d, start, size)
  {
    Install(d[..start], HeadList(d[start], HeadN(d[start])), d[start + 1..], HeadN(d[start]))
  }

  lemma {:induction false} InstallAt(home: Disk, sectors: seq<nat>, blocks: Disk, k: nat, s: nat)
    requires k <= |sectors| && k <= |blocks| && s < |home|
    requires forall i | 0 <= i < k :: sectors[i] < |home|
    requires forall i, j | 0 <= i < j < k :: sectors[i] != sectors[j]
    ensures forall i | 0 <= i < k && sectors[i] == s :: Install(home, sectors, blocks, k)[s] == blocks[i]
    ensures !Has(sectors, 0, k, s) ==> Install(home, sectors, blocks, k)[s] == home[s]
  {
    if k > 0 {
      InstallAt(home, sectors, blocks, k - 1, s);
    }
  }

  /** Only where the listed blocks end up matters: two homes that agree elsewhere replay to the same one. */
  lemma InstallSame(home: Disk, home': Disk, sectors: seq<nat>, blocks: Disk, k: nat)
    requires k <= |sectors| && k <= |blocks| && |home| == |home'|
    requires forall i | 0 <= i < k :: sectors[i] < |home|
    requires forall i, j | 0 <= i < j < k :: sectors[i] != sectors[j]
    requires forall s | 0 <= s < |home| && !Has(sectors, 0, k, s) :: home[s] == home'[s]
    ensures Install(home, sectors, blocks, k) == Install(home', sectors, blocks, k)
  {
    forall s | 0 <= s < |home|
      ensures Install(home, sectors, blocks, k)[s] == Install(home', sectors, blocks, k)[s]
    {
      InstallAt(home, sectors, blocks, k, s);
      InstallAt(home', sectors, blocks, k, s);
    }
  }

  /** Overwriting a sector that the header lists does not change what recovery produces. */
  lemma InstallStep(d: Disk, start: nat, size: nat, i: nat, b: Block)
    requires LogOk(d, start, size) && i < HeadN(d[start])
    ensures LogOk(d[HeadSector(d[start], i) := b], start, size)
    ensures Recovered(d[HeadSector(d[start], i) := b], start, size) == Recovered(d, start, size)
  {
    var n, secs := HeadN(d[start]), HeadList(d[start], HeadN(d[start]));
    var d' := d[secs[i] := b];
    assert d'[start] == d[start] && d'[start + 1..] == d[start + 1..];
    assert Has(secs, 0, n, secs[i]);
    InstallSame(d[..start], d'[..start], secs, d[start + 1..], n);
  }

  /** A header that lists nothing makes recovery leave home alone, whatever else is in the log region. */
  lemma EmptyLog(d: Disk, start: nat, size: nat)
    requires Fits(d, start, size) && HeadN(d[start]) == 0
    ensures LogOk(d, start, size) && Recovered(d, start, size) == d[..start]
  {
  }

  /** The disk d after the first k blocks its header lists have been copied home. */
  ghost function CopiedHome(d: Disk, start: nat, size: nat, k: nat): (r: Disk)
    requires LogOk(d, start, size) && k <= HeadN(d[start])
    ensures |r| == |d|
  {
    Install(d[..start], HeadList(d[start], HeadN(d[start])), d[start + 1..], k) + d[start..]
  }

  lemma CopyStep(d: Disk, start: nat, size: nat, k: nat)
    requires LogOk(d, start, size) && k < HeadN(d[start])
    ensures CopiedHome(d, start, size, k)[HeadSector(d[start], k) := d[start + 1 + k]] ==
      CopiedHome(d, start, size, k + 1)
    ensures CopiedHome(d, start, size, k)[start + 1 + k] == d[start + 1 + k]
  {
    var home := Install(d[..start], HeadList(d[start], HeadN(d[start])), d[start + 1..], k);
    assert (home + d[start..])[start + 1 + k] == d[start..][1 + k];
    assert d[start + 1..][k] == d[start + 1 + k];
  }

  lemma CopyNone(d: Disk, start: nat, size: nat)
    requires LogOk(d, start, size)
    ensures CopiedHome(d, start, size, 0) == d
  {
  }

  /** From index lo on, the disk states of the trace are d with one more block copied home each time. */
  ghost predicate Copies(d: Disk, trace: seq<Disk>, lo: nat, start: nat, size: nat)
    requires LogOk(d, start, size)
  {
    && lo <= |trace| <= lo + HeadN(d[start])
    && forall j | lo <= j < |trace| :: trace[j] == CopiedHome(d, start, size, j - lo + 1)
  }

  lemma CopiesNone(d: Disk, trace: seq<Disk>, start: nat, size: nat)
    requires LogOk(d, start, size)
    ensures Copies(d, trace, |trace|, start, size)
  {
  }

  lemma CopiesGrow(d: Disk, trace: seq<Disk>, lo: nat, start: nat, size: nat)
    requires LogOk(d, start, size) && Copies(d, trace, lo, start, size) && |trace| < lo + HeadN(d[start])
    ensures Copies(d, trace + [CopiedHome(d, start, size, |trace| - lo + 1)], lo, start, size)
  {
  }

  /** Recovery of d passes through d': some blocks copied home, or all of them and the header cleared. */
  ghost predicate Passes(d: Disk, d': Disk, start: nat, size: nat)
    requires LogOk(d, start, size)
  {
    || (exists k: nat :: k <= HeadN(d[start]) && d' == CopiedHome(d, start, size, k))
    || (exists h: Block :: HeadN(h) == 0 && d' == CopiedHome(d, start, size, HeadN(d[start]))[start := h])
  }

  lemma CopiedRecovers(d: Disk, start: nat, size: nat, k: nat)
    requires LogOk(d, start, size) && k <= HeadN(d[start])
    ensures LogOk(CopiedHome(d, start, size, k), start, size)
    ensures CopiedHome(d, start, size, k)[start..] == d[start..]
    ensures Recovered(CopiedHome(d, start, size, k), start, size) == Recovered(d, start, size)
  {
    var n, secs, blocks := HeadN(d[start]), HeadList(d[start], HeadN(d[start])), d[start + 1..];
    var home := Install(d[..start], secs, blocks, k);
    var d' := home + d[start..];
    assert d'[start] == d[start] && d'[..start] == home && d'[start + 1..] == blocks;
    forall s | 0 <= s < start && !Has(secs, 0, n, s)
      ensures home[s] == d[..start][s]
    {
      InstallAt(d[..start], secs, blocks, k, s);
    }
    InstallSame(home, d[..start], secs, blocks, n);
  }

  lemma CopiesPass(d: Disk, trace: seq<Disk>, lo: nat, start: nat, size: nat)
    requires LogOk(d, start, size) && Copies(d, trace, lo, start, size)
    ensures forall j | lo <= j < |trace| :: Passes(d, trace[j], start, size)
  {
  }

  lemma ClearPasses(d: Disk, d': Disk, start: nat, size: nat)
    requires LogOk(d, start, size) && |d'| > start && HeadN(d'[start]) == 0
    requires d' == CopiedHome(d, start, size, HeadN(d[start]))[start := d'[start]]
    ensures Passes(d, d', start, size)
  {
  }

  lemma PassesRecovers(d: Disk, d': Disk, start: nat, size: nat)
    requires LogOk(d, start, size) && Passes(d, d', start, size)
    ensures LogOk(d', start, size) && Recovered(d', start, size) == Recovered(d, start, size)
  {
    var n := HeadN(d[start]);
    if k: nat :| k <= n && d' == CopiedHome(d, start, size, k) {
      CopiedRecovers(d, start, size, k);
    } else {
      var h: Block :| HeadN(h) == 0 && d' == CopiedHome(d, start, size, n)[start := h];
      EmptyLog(d', start, size);
      assert d'[..start] == Recovered(d, start, size);
    }
  }

  /**
   * Crashes during recovery: however often recovery is cut short and started again on the disk it
   * left, what the next full recovery produces never changes.
   */
  lemma {:induction false} RepeatedCrashes(ds: seq<Disk>, start: nat, size: nat)
    requires |ds| > 0 && LogOk(ds[0], start, size)
    requires forall i | 0 <= i < |ds| - 1 && LogOk(ds[i], start, size) :: Passes(ds[i], ds[i + 1], start, size)
    ensures LogOk(ds[|ds| - 1], start, size)
    ensures Recovered(ds[|ds| - 1], start, size) == Recovered(ds[0], start, size)
  {
    hide LogOk; hide Passes; hide Recovered;
    if |ds| > 1 {
      var prefix := ds[..|ds| - 1];
      assert forall i | 0 <= i < |prefix| - 1 && LogOk(prefix[i], start, size) ::
        Passes(prefix[i], prefix[i + 1], start, size) by {
        forall i | 0 <= i < |prefix| - 1 && LogOk(prefix[i], start, size)
          ensures Passes(prefix[i], prefix[i + 1], start, size)
        {
          assert LogOk(ds[i], start, size);
        }
      }
      RepeatedCrashes(prefix, start, size);
      PassesRecovers(ds[|ds| - 2], ds[|ds| - 1], start, size);
    }
  }
}
