/** The addresses handed to pups (AdoptPup in pkg/pup/actions.go, the start-up scan
    in pkg/pup/manager.go). */
module Allocators {
  type Byte = b: int | 0 <= b < 256

  type IP = s: seq<Byte> | |s| == 4 witness [0, 0, 0, 0]

  const SPACE := 0x1_0000_0000
  const FIRST_IP: IP := [10, 69, 0, 1]
  const LAST_IP: IP := [10, 70, 255, 255]

  /** The address as a big-endian number. */
  ghost function Num(ip: IP): (n: nat)
    ensures n < SPACE
  {
    var a: int, b: int, c: int, d: int := ip[0], ip[1], ip[2], ip[3];
    ((a * 256 + b) * 256 + c) * 256 + d
  }

  ghost function AddressAt(n: nat): (ip: IP)
    requires n < SPACE
    ensures Num(ip) == n
  {
    var high := n / 0x1_0000;
    [high / 256, high % 256, n % 0x1_0000 / 256, n % 256]
  }

  lemma NumInjective(a: IP, b: IP)
    requires Num(a) == Num(b)
    ensures a == b
  {
    var a0: int, a1: int, a2: int, a3: int := a[0], a[1], a[2], a[3];
    var b0: int, b1: int, b2: int, b3: int := b[0], b[1], b[2], b[3];
    SameDigit((a0 * 256 + a1) * 256 + a2, a3, (b0 * 256 + b1) * 256 + b2, b3);
    SameDigit(a0 * 256 + a1, a2, b0 * 256 + b1, b2);
    SameDigit(a0, a1, b0, b1);
  }

  lemma SameDigit(x: int, d: int, y: int, e: int)
    requires x * 256 + d == y * 256 + e && 0 <= d < 256 && 0 <= e < 256
    ensures x == y && d == e
  {}

  /** The byte-wise increment with carry, in place. */
  method ClaimNextIP(lastIP: array<Byte>)
    requires lastIP.Length == 4
    modifies lastIP
    ensures Num(lastIP[..]) == (Num(old(lastIP[..])) + 1) % SPACE
  {
    ghost var before := lastIP[..];
    var i := 3;
    while i >= 0
      invariant -1 <= i <= 3
      invariant forall k :: 0 <= k <= i ==> lastIP[k] == before[k]
      invariant forall k :: i < k < 4 ==> before[k] == 255 && lastIP[k] == 0
    {
      lastIP[i] := ((lastIP[i] as int) + 1) % 256;
      if lastIP[i] > 0 {
        CarryIsIncrement(before, lastIP[..], i);
        return;
      }
      i := i - 1;
    }
    assert lastIP[..] == [0, 0, 0, 0] && before == [255, 255, 255, 255];
  }

  lemma CarryIsIncrement(a: IP, b: IP, i: nat)
    requires i < 4 && b[i] == (a[i] as int) + 1
    requires forall k :: 0 <= k < i ==> b[k] == a[k]
    requires forall k :: i < k < 4 ==> a[k] == 255 && b[k] == 0
    ensures Num(b) == Num(a) + 1
  {
    assert i == 0 || i == 1 || i == 2 || i == 3;
  }

  /** The test that refuses an address, and what it means. */
  predicate OffTheEdge(ip: IP) {
    ip[0] > 10 || (ip[0] == 10 && ip[1] > 70)
  }

  lemma EdgeIsLimit(ip: IP)
    ensures OffTheEdge(ip) <==> Num(ip) > Num(LAST_IP)
    ensures OffTheEdge(ip) <==> Num(ip) > ((10 * 256 + 70) * 256 + 255) * 256 + 255
  {}

  // ------------------------------------------------------------------
  // The start-up scan
  // ------------------------------------------------------------------

  /** Every octet of `a` is at most that of `b`. */
  predicate OctetsLe(a: IP, b: IP) {
    a[0] <= b[0] && a[1] <= b[1] && a[2] <= b[2] && a[3] <= b[3]
  }

  lemma OctetsLeIsLe(a: IP, b: IP)
    requires OctetsLe(a, b)
    ensures Num(a) <= Num(b)
  {}

  /** The comparison loop goes on after a larger octet, so it takes the other
      address as soon as any octet is smaller. */
  function ScanStep(ip: IP, ip2: IP): IP {
    if OctetsLe(ip2, ip) then ip else ip2
  }

  function Scan(ip: IP, rest: seq<IP>): IP
    decreases |rest|
  {
    if rest == [] then ip else Scan(ScanStep(ip, rest[0]), rest[1..])
  }

  /** The nested loop over the stored addresses, in the order they come. */
  method ScanAddresses(stored: seq<IP>) returns (ip: IP)
    ensures ip == Scan(FIRST_IP, stored)
  {
    ip := FIRST_IP;
    for n := 0 to |stored|
      invariant Scan(ip, stored[n..]) == Scan(FIRST_IP, stored)
    {
      var ip2 := stored[n];
      ghost var before := ip;
      assert stored[n..][1..] == stored[n + 1..];
      var i := 0;
      while i < 4
        invariant 0 <= i <= 4 && ip == before
        invariant forall k :: 0 <= k < i ==> ip2[k] <= ip[k]
      {
        if ip[i] < ip2[i] {
          ip := ip2;
          break;
        } else if ip[i] > ip2[i] {
          i := i + 1;
          continue;
        }
        i := i + 1;
      }
      assert ip == ScanStep(before, ip2);
    }
  }

  lemma {:induction false} ScanSnoc(ip: IP, rest: seq<IP>, last: IP)
    ensures Scan(ip, rest + [last]) == ScanStep(Scan(ip, rest), last)
    decreases |rest|
  {
    if rest == [] {
      assert rest + [last] == [last];
      assert Scan(ScanStep(ip, last), [last][1..]) == ScanStep(ip, last);
    } else {
      assert (rest + [last])[1..] == rest[1..] + [last];
      ScanSnoc(ScanStep(ip, rest[0]), rest[1..], last);
    }
  }

  lemma {:induction false} ScanPicksOne(ip: IP, rest: seq<IP>)
    ensures Scan(ip, rest) == ip || Scan(ip, rest) in rest
    decreases |rest|
  {
    if rest != [] {
      ScanPicksOne(ScanStep(ip, rest[0]), rest[1..]);
    }
  }

  /** An address that is largest in every octet is found, whatever the order. */
  lemma {:induction false} ScanFindsTop(ip: IP, rest: seq<IP>, top: IP)
    requires ip == top || top in rest
    requires OctetsLe(ip, top) && forall x <- rest :: OctetsLe(x, top)
    ensures Scan(ip, rest) == top
    decreases |rest|
  {
    if rest != [] {
      if top == rest[0] && OctetsLe(top, ip) {
        OctetsLeIsLe(top, ip);
        OctetsLeIsLe(ip, top);
        NumInjective(ip, top);
      }
      ScanFindsTop(ScanStep(ip, rest[0]), rest[1..], top);
    }
  }

  lemma {:induction false} ScanStays(ip: IP, rest: seq<IP>)
    requires forall x <- rest :: OctetsLe(x, ip)
    ensures Scan(ip, rest) == ip
    decreases |rest|
  {
    if rest != [] {
      ScanStays(ip, rest[1..]);
    }
  }

  /** Even from a start that exceeds it in some octet, the scan ends at or above all
      addresses if one of them, or the start, is largest in every octet. */
  lemma {:induction false} ScanCovers(ip: IP, rest: seq<IP>, top: IP)
    requires (ip == top || top in rest) && forall x <- rest :: OctetsLe(x, top)
    ensures forall x <- rest :: Num(x) <= Num(Scan(ip, rest))
    decreases |rest|
  {
    forall x | x in rest
      ensures Num(x) <= Num(top)
    {
      OctetsLeIsLe(x, top);
    }
    if OctetsLe(top, ip) {
      ScanStays(ip, rest);
      OctetsLeIsLe(top, ip);
    } else if OctetsLe(rest[0], ip) {
      assert top in rest[1..];
      ScanCovers(ip, rest[1..], top);
    } else {
      ScanFindsTop(rest[0], rest[1..], top);
    }
  }

  /** Otherwise some order of the same addresses makes the scan miss the largest
      one: if `top` is the largest but `other` exceeds it in some octet, the scan
      that meets them last, in this order, ends on `other`. */
  lemma ScanCanMissTop(ip: IP, rest: seq<IP>, top: IP, other: IP)
    requires Num(other) <= Num(top) && forall x <- rest :: Num(x) <= Num(top)
    requires !OctetsLe(other, top) && (OctetsLe(top, ip) ==> !OctetsLe(other, ip))
    ensures Scan(ip, rest + [top, other]) == other && Num(other) < Num(top)
  {
    var before := Scan(ip, rest);
    ScanPicksOne(ip, rest);
    assert rest + [top, other] == rest + [top] + [other];
    ScanSnoc(ip, rest, top);
    ScanSnoc(ip, rest + [top], other);
    if before in rest && OctetsLe(top, before) {
      OctetsLeIsLe(top, before);
      NumInjective(top, before);
    }
    if Num(other) == Num(top) {
      NumInjective(other, top);
    }
  }

  predicate InFirstNet(ip: IP) {
    ip[0] == 10 && ip[1] == 69 && ip[2] == 0
  }

  /** Inside 10.69.0.0/24 the scan is the maximum. */
  lemma {:induction false} ScanCoversFirstNet(ip: IP, rest: seq<IP>)
    requires InFirstNet(ip) && forall x <- rest :: InFirstNet(x)
    ensures var found := Scan(ip, rest);
            InFirstNet(found) && Num(ip) <= Num(found) && forall x <- rest :: Num(x) <= Num(found)
    decreases |rest|
  {
    if rest != [] {
      ScanCoversFirstNet(ScanStep(ip, rest[0]), rest[1..]);
    }
  }

  // ------------------------------------------------------------------
  // First-fit ports
  // ------------------------------------------------------------------

  const MIN_WEBUI_PORT := 10000

  /** Ports that may be handed out: from the first one up, free on the host, and
      not consumed by a pup. */
  ghost predicate Candidate(port: int, consumed: set<int>, osFree: set<int>) {
    port >= MIN_WEBUI_PORT && port in osFree && port !in consumed
  }

  ghost function Candidates(consumed: set<int>, osFree: set<int>): set<int> {
    set p | p in osFree && Candidate(p, consumed, osFree)
  }

  /** `out` are the smallest candidates, in order. */
  ghost predicate FirstFit(out: seq<int>, consumed: set<int>, osFree: set<int>) {
    && (forall i :: 0 <= i < |out| ==> Candidate(out[i], consumed, osFree))
    && (forall i, j :: 0 <= i < j < |out| ==> out[i] < out[j])
    && (forall p :: Candidate(p, consumed, osFree) && p !in out ==> forall i :: 0 <= i < |out| ==> out[i] < p)
  }

  /** First fit leaves no choice. */
  lemma {:induction false} FirstFitIsUnique(a: seq<int>, b: seq<int>, consumed: set<int>, osFree: set<int>)
    requires FirstFit(a, consumed, osFree) && FirstFit(b, consumed, osFree) && |a| == |b|
    ensures a == b
  {
    if a != [] {
      var n := |a| - 1;
      FirstFitPrefix(a, consumed, osFree);
      FirstFitPrefix(b, consumed, osFree);
      FirstFitIsUnique(a[..n], b[..n], consumed, osFree);
      LastIsLeast(a, b, consumed, osFree);
      LastIsLeast(b, a, consumed, osFree);
      SameSeq(a, b, n);
    }
  }

  lemma SameSeq(a: seq<int>, b: seq<int>, n: nat)
    requires |a| == |b| == n + 1 && a[..n] == b[..n] && a[n] == b[n]
    ensures a == b
  {
    assert a == a[..n] + [a[n]] && b == b[..n] + [b[n]];
  }

  lemma LastIsLeast(a: seq<int>, b: seq<int>, consumed: set<int>, osFree: set<int>)
    requires FirstFit(a, consumed, osFree) && FirstFit(b, consumed, osFree) && |a| == |b| > 0
    requires a[..|a| - 1] == b[..|b| - 1]
    ensures a[|a| - 1] <= b[|b| - 1]
  {
    var n := |a| - 1;
    assert Candidate(b[n], consumed, osFree);
    forall i | 0 <= i < n
      ensures a[i] != b[n]
    {
      assert a[i] == a[..n][i] == b[..n][i] == b[i];
    }
  }

  lemma FirstFitPrefix(out: seq<int>, consumed: set<int>, osFree: set<int>)
    requires FirstFit(out, consumed, osFree) && out != []
    ensures FirstFit(out[..|out| - 1], consumed, osFree)
  {
    var n := |out| - 1;
    forall p | Candidate(p, consumed, osFree) && p !in out[..n]
      ensures forall i :: 0 <= i < n ==> out[..n][i] < p
    {
      if p in out {
        assert p == out[n];
      }
    }
  }

  ghost function Ports(out: seq<int>): set<int> {
    set p | p in out
  }

  lemma {:induction false} PortsSize(out: seq<int>)
    ensures |Ports(out)| <= |out|
  {
    if out != [] {
      var n := |out| - 1;
      PortsSize(out[..n]);
      assert Ports(out) == Ports(out[..n]) + {out[n]};
    }
  }

  /** While too few candidates are used there is another one. */
  lemma CandidateLeft(out: seq<int>, consumed: set<int>, osFree: set<int>) returns (port: int)
    requires |out| < |Candidates(consumed, osFree)|
    ensures Candidate(port, consumed, osFree) && port !in out
  {
    PortsSize(out);
    var all := Candidates(consumed, osFree);
    if all <= Ports(out) {
      SubsetSize(all, Ports(out));
    }
    port :| port in all && port !in Ports(out);
  }

  lemma {:induction false} SubsetSize<T>(a: set<T>, b: set<T>)
    requires a <= b
    ensures |a| <= |b|
  {
    if a != {} {
      var x :| x in a;
      SubsetSize(a - {x}, b - {x});
    }
  }

  /** One inner search, from the first port up, for a port not consumed and free
      on the host. `bound` is any port that would do: it bounds the search. */
  method SearchPort(consumed: set<int>, osFree: set<int>, ghost bound: int) returns (port: int)
    requires Candidate(bound, consumed, osFree)
    ensures Candidate(port, consumed, osFree)
    ensures forall p :: Candidate(p, consumed, osFree) ==> port <= p
  {
    port := MIN_WEBUI_PORT;
    while port in consumed || port !in osFree
      invariant MIN_WEBUI_PORT <= port <= bound
      invariant forall p :: MIN_WEBUI_PORT <= p < port ==> !Candidate(p, consumed, osFree)
      decreases bound - port
    {
      port := port + 1;
    }
  }

  /** The outer loop of nextAvailablePorts. It needs enough candidates: the search
      has no upper end. */
  method PickPorts(start: set<int>, osFree: set<int>, howMany: int) returns (out: seq<int>)
    requires howMany <= |Candidates(start, osFree)|
    ensures |out| == if howMany <= 0 then 0 else howMany
    ensures FirstFit(out, start, osFree)
  {
    out := [];
    if howMany <= 0 {
      return;
    }
    var consumed := start;
    while |out| < howMany
      invariant |out| <= howMany
      invariant consumed == start + Ports(out)
      invariant FirstFit(out, start, osFree)
    {
      ghost var bound := CandidateLeft(out, start, osFree);
      var port := SearchPort(consumed, osFree, bound);
      FirstFitSnoc(out, port, start, osFree);
      out := out + [port];
      consumed := consumed + {port};
    }
  }

  lemma FirstFitSnoc(out: seq<int>, port: int, start: set<int>, osFree: set<int>)
    requires FirstFit(out, start, osFree)
    requires Candidate(port, start + Ports(out), osFree)
    requires forall p :: Candidate(p, start + Ports(out), osFree) ==> port <= p
    ensures FirstFit(out + [port], start, osFree)
  {
    assert Candidate(port, start, osFree) && port !in out;
    forall p | Candidate(p, start, osFree) && p !in out + [port]
      ensures port < p && forall i :: 0 <= i < |out| ==> out[i] < p
    {
      InSnoc(out, port, p);
      assert Candidate(p, start + Ports(out), osFree);
      InSnoc(out, port, port);
    }
  }

  lemma InSnoc(out: seq<int>, port: int, p: int)
    ensures p in out + [port] <==> p in out || p == port
  {}

  ghost function CandidatesBelow(q: int, consumed: set<int>, osFree: set<int>): set<int> {
    set p | p in Candidates(consumed, osFree) && p < q
  }

  /** A candidate is handed out exactly when fewer candidates than wanted lie below it. */
  lemma PickedIff(out: seq<int>, q: int, consumed: set<int>, osFree: set<int>)
    requires FirstFit(out, consumed, osFree) && Candidate(q, consumed, osFree)
    ensures q in out <==> |CandidatesBelow(q, consumed, osFree)| < |out|
  {
    var below := CandidatesBelow(q, consumed, osFree);
    if q in out {
      var i :| 0 <= i < |out| && out[i] == q;
      forall p | p in below
        ensures p in Ports(out[..i])
      {
        assert p in out;
        var j :| 0 <= j < |out| && out[j] == p;
        assert out[..i][j] == p;
      }
      SubsetSize(below, Ports(out[..i]));
      PortsSize(out[..i]);
    } else {
      forall p | p in Ports(out)
        ensures p in below
      {
        var i :| 0 <= i < |out| && out[i] == p;
      }
      SubsetSize(Ports(out), below);
      IncreasingPorts(out);
    }
  }

  lemma {:induction false} IncreasingPorts(out: seq<int>)
    requires forall i, j :: 0 <= i < j < |out| ==> out[i] < out[j]
    ensures |Ports(out)| == |out|
  {
    if out != [] {
      var n := |out| - 1;
      IncreasingPorts(out[..n]);
      assert out[n] !in Ports(out[..n]);
      assert Ports(out) == Ports(out[..n]) + {out[n]};
    }
  }

  /** After the ports already picked the search for one more ends exactly when a
      candidate is left, that is when not all of them are picked. */
  lemma SearchEndsIff(out: seq<int>, consumed: set<int>, osFree: set<int>)
    requires FirstFit(out, consumed, osFree)
    ensures (exists p :: Candidate(p, consumed + Ports(out), osFree)) <==> |out| < |Candidates(consumed, osFree)|
  {
    var all := Candidates(consumed, osFree);
    IncreasingPorts(out);
    if |out| < |all| {
      var port := CandidateLeft(out, consumed, osFree);
      assert Candidate(port, consumed + Ports(out), osFree);
    } else {
      SubsetSize(Ports(out), all);
      SameSizeSubset(Ports(out), all);
    }
  }

  lemma SameSizeSubset(a: set<int>, b: set<int>)
    requires a <= b && |a| >= |b|
    ensures a == b
  {
    forall x | x in b
      ensures x in a
    {
      if x !in a {
        SubsetSize(a, b - {x});
      }
    }
  }
}
