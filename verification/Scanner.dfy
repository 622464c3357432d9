/** The streaming search for the closing delimiter of an upload, one byte at a
    time. `ScanStep` decides what a buffer allows without waiting for more
    input; `ScanLen` is how far the search gets. The lemmas say what that is:
    everything before the first occurrence of the terminator, however the
    bytes arrive.
 */
module Scanner {
  import opened Bytes

  /** CRLF, two dashes, the boundary, two dashes, CRLF (section 5.1.1 of RFC 2046). */
  function Terminator(boundary: string): (t: string)
    ensures |t| == |boundary| + 8 && t[0] == '\r'
  {
    "\r\n--" + boundary + "--\r\n"
  }

  /** The same in the bytes of section 5.1.1 of RFC 2046. */
  lemma TerminatorText(boundary: string)
    ensures Terminator(boundary) == "\r\n--" + boundary + "--\r\n"
  {
  }

  datatype Verdict = Wait | Keep | Found

  /** The front byte of `p`: it belongs to the file, or it opens the terminator,
      or it is a carriage return with too little behind it to tell. */
  function ScanStep(t: string, p: string): Verdict {
    if p == "" then Wait
    else if p[0] != '\r' then Keep
    else if |p| < |t| then Wait
    else if p[..|t|] == t then Found
    else Keep
  }

  /** Number of bytes that go to the file before the search stops. */
  function ScanLen(t: string, p: string): (k: nat)
    ensures k <= |p|
    ensures forall j: nat | j < k :: ScanStep(t, p[j..]) == Keep
    ensures ScanStep(t, p[k..]) != Keep
  {
    if ScanStep(t, p) != Keep then
      assert p[0..] == p;
      0
    else
      var k := ScanLen(t, p[1..]);
      assert forall j: nat | j <= |p| - 1 :: p[1..][j..] == p[j + 1..];
      assert p[0..] == p;
      assert forall j: nat | j < k + 1 :: ScanStep(t, p[j..]) == Keep by {
        forall j: nat | j < k + 1 ensures ScanStep(t, p[j..]) == Keep {
          if j > 0 { assert p[1..][j - 1..] == p[j..]; }
        }
      }
      k + 1
  }

  predicate ScanDone(t: string, p: string) {
    ScanStep(t, p[ScanLen(t, p)..]) == Found
  }

  /** A byte is decided by what is in the buffer, so more input cannot change the decision. */
  lemma ScanStepAppend(t: string, p: string, b: string)
    requires ScanStep(t, p) != Wait
    ensures ScanStep(t, p + b) == ScanStep(t, p)
  {
    assert |p| >= |t| ==> (p + b)[..|t|] == p[..|t|];
  }

  /** A run of decided bytes may be taken in one go. */
  lemma {:induction false} ScanRun(t: string, p: string, n: nat)
    requires n <= |p|
    requires forall j: nat | j < n :: ScanStep(t, p[j..]) == Keep
    ensures ScanLen(t, p) == n + ScanLen(t, p[n..])
  {
    if n == 0 {
      assert p[0..] == p;
    } else {
      assert p[0..] == p;
      assert ScanStep(t, p) == Keep;
      forall j: nat | j < n - 1 ensures ScanStep(t, p[1..][j..]) == Keep {
        assert p[1..][j..] == p[j + 1..];
      }
      ScanRun(t, p[1..], n - 1);
      assert p[1..][n - 1..] == p[n..];
    }
  }

  /** Where a `Keep` byte stands, no terminator begins. */
  lemma KeepIsNoMatch(t: string, p: string, i: nat)
    requires t != "" && t[0] == '\r' && i <= |p|
    requires ScanStep(t, p[i..]) == Keep
    ensures !OccursAt(p, t, i)
  {
    if i + |t| <= |p| {
      assert p[i..][..|t|] == p[i..i + |t|];
      assert p[i..][0] == p[i..i + |t|][0];
    }
  }

  /** The streaming search refines a plain search of the whole stream: it stops
      on a terminator exactly when the stream holds one, and what it has kept by
      then is the stream up to the first one. */
  lemma ScanFindsFirst(t: string, p: string)
    requires t != "" && t[0] == '\r'
    ensures ScanDone(t, p) <==> Find(p, t).Some?
    ensures ScanDone(t, p) ==> Find(p, t) == Some(ScanLen(t, p))
  {
    var k := ScanLen(t, p);
    forall j: nat | j < k ensures !OccursAt(p, t, j) {
      KeepIsNoMatch(t, p, j);
    }
    if ScanDone(t, p) {
      assert p[k..][..|t|] == p[k..k + |t|];
      FindIs(p, t, k);
    } else {
      forall j: nat ensures !OccursAt(p, t, j) {
        if j >= k { assert |p| - k < |t|; }
      }
    }
  }

  /** The first carriage return among the last |t| - 1 bytes, or the end. */
  function HoldBack(t: string, p: string): (h: nat)
    requires t != ""
    ensures h <= |p|
  {
    var tail := if |p| < |t| - 1 then 0 else |p| - (|t| - 1);
    match IndexFrom(p, '\r', tail)
    case Some(i) => i
    case None => |p|
  }

  /** Closed form of what is held back while the terminator has not fully
      arrived: it depends on the last |t| - 1 bytes of the stream and on nothing
      else, in particular not on how the stream was cut. */
  lemma HoldBackClosedForm(t: string, p: string)
    requires t != "" && t[0] == '\r'
    requires Find(p, t).None?
    ensures ScanLen(t, p) == HoldBack(t, p)
    ensures var held := p[ScanLen(t, p)..];
      held == "" || (held[0] == '\r' && |held| < |t|)
  {
    ScanFindsFirst(t, p);
    var k := ScanLen(t, p);
    var tail := if |p| < |t| - 1 then 0 else |p| - (|t| - 1);
    forall j: nat | tail <= j < k ensures p[j] != '\r' {
      assert ScanStep(t, p[j..]) == Keep;
      assert p[j..][0] == p[j];
    }
    assert k < |p| ==> p[k..][0] == p[k];
    assert k < |p| ==> tail <= k;
    FirstCarriageReturn(p, tail, k);
  }

  lemma FirstCarriageReturn(p: string, tail: nat, k: nat)
    requires tail <= |p| && k <= |p|
    requires k < |p| ==> tail <= k && p[k] == '\r'
    requires forall j: nat | tail <= j < k :: p[j] != '\r'
    ensures IndexFrom(p, '\r', tail) == if k < |p| then Some(k) else None
  {
    if k < |p| {
      IndexFromIs(p, '\r', tail, k);
    }
  }

  // ------------------------------------------------ when content survives

  /** A terminator whose boundary holds no carriage return overlaps itself only
      in its CRLF border. */
  lemma TerminatorBorder(boundary: string, k: nat)
    requires '\r' !in boundary
    requires 0 < k < |Terminator(boundary)|
    requires Terminator(boundary)[|Terminator(boundary)| - k..] == Terminator(boundary)[..k]
    ensures k == 2
  {
    var t := Terminator(boundary);
    var i := |t| - k;
    assert forall j | 4 <= j < 4 + |boundary| :: t[j] == boundary[j - 4] && t[j] in boundary;
    assert t[i] == t[i..][0] == t[..k][0] == '\r';
  }

  /** `c`, sent followed by its terminator, is recovered whole. */
  predicate Survives(boundary: string, c: string) {
    Find(c + Terminator(boundary), Terminator(boundary)) == Some(|c|)
  }

  /** The exact side condition of an upload: the content comes back whole if and
      only if the content followed by CRLF does not already hold the terminator. */
  lemma SurvivesIff(boundary: string, c: string)
    requires '\r' !in boundary
    ensures Survives(boundary, c) <==> Find(c + CRLF, Terminator(boundary)).None?
  {
    var t := Terminator(boundary);
    var s := c + t;
    var u := c + CRLF;
    assert u <= s && s == u + t[2..];
    if Find(u, t).Some? {
      FindAppend(u, t[2..], t);
      assert Find(s, t).value + |t| <= |u|;
    } else {
      assert s[|c|..|c| + |t|] == t;
      forall j: nat | j < |c| ensures !OccursAt(s, t, j) {
        if j + |t| <= |u| {
          OccursAtAppend(u, t[2..], t, j);
        } else if OccursAt(s, t, j) {
          var k := j + |t| - |c|;
          assert t[|t| - k..] == s[j..j + |t|][|t| - k..] == s[|c|..|c| + k] == t[..k];
          TerminatorBorder(boundary, k);
          assert false;
        }
      }
      FindIs(s, t, |c|);
    }
  }

  /** Otherwise the search stops early, on a terminator inside. */
  lemma NotSurviving(boundary: string, c: string)
    requires !Survives(boundary, c)
    requires Find(c + Terminator(boundary), Terminator(boundary))
      == Some(ScanLen(Terminator(boundary), c + Terminator(boundary)))
    requires ScanLen(Terminator(boundary), c + Terminator(boundary)) <= |c|
    ensures var k := ScanLen(Terminator(boundary), c + Terminator(boundary));
      k < |c| && OccursAt(c + Terminator(boundary), Terminator(boundary), k)
  {
    hide ScanLen, Terminator;
  }
}
