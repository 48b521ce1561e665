/**
 * The diagnostic log: logMessage writes lines into a fixed ring of MAX_LOG_LINES strings and
 * handleLogDataRequest reads the ring back oldest line first.
 */
module EventLog {

  const MAX_LOG_LINES: nat := 50

  function Blank(n: nat): (s: seq<string>)
    ensures |s| == n && forall i :: 0 <= i < n ==> s[i] == ""
  {
    if n == 0 then [] else Blank(n - 1) + [""]
  }

  /** The ring after writing the lines of `h` in order, each at the slot after the previous one. */
  function Ring(h: seq<string>): (r: seq<string>)
    ensures |r| == MAX_LOG_LINES
    decreases |h|
  {
    if h == [] then Blank(MAX_LOG_LINES)
    else Ring(h[..|h| - 1])[(|h| - 1) % MAX_LOG_LINES := h[|h| - 1]]
  }

  /** The ring read from slot `k` round to slot `k - 1`. */
  function Rotated(s: seq<string>, k: nat): seq<string>
    requires k <= |s|
  {
    s[k..] + s[..k]
  }

  /** The last MAX_LOG_LINES lines of `h`, oldest first, preceded by blank slots while fewer were written. */
  function Padded(h: seq<string>): (p: seq<string>)
    ensures |p| == MAX_LOG_LINES
  {
    (Blank(MAX_LOG_LINES) + h)[|h|..]
  }

  /** The last MAX_LOG_LINES lines of `h`, oldest first. */
  function Window(h: seq<string>): seq<string>
  {
    if |h| <= MAX_LOG_LINES then h else h[|h| - MAX_LOG_LINES..]
  }

  /** Writing at slot `k` and reading from slot `k + 1` drops the oldest line and appends `e`. */
  lemma RotatedWrite(r: seq<string>, k: nat, e: string)
    requires |r| == MAX_LOG_LINES && k < MAX_LOG_LINES
    ensures Rotated(r[k := e], (k + 1) % MAX_LOG_LINES) == Rotated(r, k)[1..] + [e]
  {
    if k + 1 < MAX_LOG_LINES {
      assert r[k := e][k + 1..] == r[k + 1..];
      assert r[k := e][..k + 1] == r[..k] + [e];
      assert Rotated(r, k)[1..] == r[k + 1..] + r[..k];
    } else {
      assert r[k := e][0..] + r[k := e][..0] == r[..k] + [e];
      assert Rotated(r, k)[1..] == r[..k];
    }
  }

  /** One more line shifts the padded window by one. */
  lemma PaddedAppend(p: seq<string>, e: string)
    ensures Padded(p + [e]) == Padded(p)[1..] + [e]
  {
    assert Blank(MAX_LOG_LINES) + (p + [e]) == (Blank(MAX_LOG_LINES) + p) + [e];
  }

  lemma NextSlot(n: nat)
    ensures (n % MAX_LOG_LINES + 1) % MAX_LOG_LINES == (n + 1) % MAX_LOG_LINES
  {
  }

  /** Writing one more line keeps the ring read from the next write position equal to the padded window. */
  lemma RingStep(p: seq<string>, e: string)
    requires Rotated(Ring(p), |p| % MAX_LOG_LINES) == Padded(p)
    ensures Rotated(Ring(p + [e]), |p + [e]| % MAX_LOG_LINES) == Padded(p + [e])
  {
    var k := |p| % MAX_LOG_LINES;
    assert (p + [e])[..|p|] == p;
    assert Ring(p + [e]) == Ring(p)[k := e];
    NextSlot(|p|);
    assert |p + [e]| % MAX_LOG_LINES == (k + 1) % MAX_LOG_LINES;
    RotatedWrite(Ring(p), k, e);
    assert Rotated(Ring(p + [e]), (k + 1) % MAX_LOG_LINES) == Padded(p)[1..] + [e];
    PaddedAppend(p, e);
  }

  /** Reading the ring from the next write position gives the retained lines oldest first. */
  lemma {:induction false} RingOldestFirst(h: seq<string>)
    ensures Rotated(Ring(h), |h| % MAX_LOG_LINES) == Padded(h)
    decreases |h|
  {
    if h != [] {
      var p := h[..|h| - 1];
      RingOldestFirst(p);
      RingStep(p, h[|h| - 1]);
      assert p + [h[|h| - 1]] == h;
    }
  }

  /** The text the log page shows: each non-blank line followed by a newline. */
  function Lines(s: seq<string>): string
    decreases |s|
  {
    if s == [] then "" else Lines(s[..|s| - 1]) + (if s[|s| - 1] != "" then s[|s| - 1] + "\n" else "")
  }

  lemma {:induction false} LinesAppend(a: seq<string>, b: seq<string>)
    ensures Lines(a + b) == Lines(a) + Lines(b)
    decreases |b|
  {
    if b == [] {
      assert a + b == a;
    } else {
      assert (a + b)[..|a + b| - 1] == a + b[..|b| - 1];
      LinesAppend(a, b[..|b| - 1]);
    }
  }

  lemma {:induction false} LinesBlank(n: nat)
    ensures Lines(Blank(n)) == ""
  {
    if n > 0 {
      assert Blank(n)[..n - 1] == Blank(n - 1);
      LinesBlank(n - 1);
    }
  }

  /** The blank slots of a partly filled ring add nothing to the log page. */
  lemma PaddedLines(h: seq<string>)
    ensures Lines(Padded(h)) == Lines(Window(h))
  {
    if |h| <= MAX_LOG_LINES {
      assert Padded(h) == Blank(MAX_LOG_LINES - |h|) + h;
      LinesAppend(Blank(MAX_LOG_LINES - |h|), h);
      LinesBlank(MAX_LOG_LINES - |h|);
    } else {
      assert Padded(h) == h[|h| - MAX_LOG_LINES..];
    }
  }

  /** Slot `i` of the ring read from slot `k` is slot `(k + i) mod MAX_LOG_LINES` of the buffer. */
  lemma RotatedAt(s: seq<string>, k: nat, i: nat)
    requires |s| == MAX_LOG_LINES && k < MAX_LOG_LINES && i < MAX_LOG_LINES
    ensures Rotated(s, k)[i] == s[(k + i) % MAX_LOG_LINES]
  {
    if k + i < MAX_LOG_LINES {
      assert Rotated(s, k)[i] == s[k..][i];
    } else {
      assert Rotated(s, k)[i] == s[..k][i - (MAX_LOG_LINES - k)];
    }
  }

  /** The log page read from the next write position shows the retained lines, oldest first. */
  lemma LogPage(h: seq<string>)
    ensures Lines(Rotated(Ring(h), |h| % MAX_LOG_LINES)) == Lines(Window(h))
  {
    RingOldestFirst(h);
    PaddedLines(h);
  }

  /** Decimal digits of `n`, as String(n) prints it. */
  function Decimal(n: nat): (s: string)
    ensures |s| > 0
    decreases n
  {
    if n < 10 then [(n + '0' as int) as char] else Decimal(n / 10) + [(n % 10 + '0' as int) as char]
  }

  /** The line logMessage stores: "[<seconds since boot>s] " followed by the message. */
  function LogLine(now: nat, msg: string): (line: string)
    ensures line != "" && line[0] == '['
  {
    "[" + Decimal(now / 1000) + "s] " + msg
  }
}
