/**
 * The identifiers of the graph are formatted strings: nodes by VM id or by a prefix and an
 * address, edges by both ends, protocol and scope.
 */
module GraphIds {
  import opened Prelude

  const SAME_TENANT := "internal_same_tenant"
  const CROSS_TENANT := "internal_cross_tenant"
  const UNKNOWN_INTERNAL := "unknown_internal"
  const EXTERNAL_PUBLIC := "external_public"
  const EXTERNAL_PRIVATE := "external_private"
  const UNKNOWN := "unknown"
  const REACHABILITY := "reachability"

  predicate IsScope(s: string) {
    s == SAME_TENANT || s == CROSS_TENANT || s == UNKNOWN_INTERNAL || s == EXTERNAL_PUBLIC || s == EXTERNAL_PRIVATE
    || s == UNKNOWN
  }

  function EdgeId(source: string, target: string, protocol: string, scope: string): string {
    source + "->" + target + ":" + protocol + "/" + scope
  }

  function SafeChar(c: char): char { if c == ':' || c == '/' || c == '%' then '_' else c }

  function NodeSafe(s: string): string { seq(|s|, i requires 0 <= i < |s| => SafeChar(s[i])) }

  // ---------------------------------------------------------------- unique decoding

  lemma {:induction false} SplitAtLast(a: string, b: string, c: string, d: string, x: char)
    requires a + [x] + b == c + [x] + d && x !in b && x !in d
    ensures a == c && b == d
  {
    var s := a + [x] + b;
    assert s[|a|] == x && s[|c|] == x;
    assert |a| == |c|;
    assert a == s[..|a|] && c == s[..|c|] && b == s[|a| + 1..] && d == s[|c| + 1..];
  }

  predicate Plain(s: string) { ':' !in s && '/' !in s }

  lemma NamesArePlain(s: string)
    requires IsProtocol(s) || IsScope(s) || s == REACHABILITY
    ensures Plain(s)
  {
  }

  function Ends(source: string, target: string): string { source + "->" + target }

  /** Edge ids meet exactly when protocol, scope and the joined ends do, whatever the node ids. */
  lemma EdgeIdsMeet(s: string, t: string, p: string, c: string, s': string, t': string, p': string, c': string)
    requires Plain(p) && Plain(c) && Plain(p') && Plain(c')
    ensures EdgeId(s, t, p, c) == EdgeId(s', t', p', c') <==> Ends(s, t) == Ends(s', t') && p == p' && c == c'
  {
    var left, left' := Ends(s, t) + ":" + p, Ends(s', t') + ":" + p';
    assert EdgeId(s, t, p, c) == left + ['/'] + c && EdgeId(s', t', p', c') == left' + ['/'] + c';
    if EdgeId(s, t, p, c) == EdgeId(s', t', p', c') {
      SplitAtLast(left, c, left', c', '/');
      assert left == Ends(s, t) + [':'] + p && left' == Ends(s', t') + [':'] + p';
      SplitAtLast(Ends(s, t), p, Ends(s', t'), p', ':');
    }
  }

  predicate ArrowAt(s: string, i: int) { 0 <= i < |s| - 1 && s[i] == '-' && s[i + 1] == '>' }

  /** The id contains the whole arrow; a lone head or shaft is no arrow. */
  predicate HasArrow(s: string) { exists i :: 0 <= i < |s| && ArrowAt(s, i) }

  lemma NoHeadNoArrow(s: string)
    requires '>' !in s
    ensures !HasArrow(s)
  {
  }

  /** The arrows of two joined ends are those of either end and the one between them. */
  lemma ArrowsOfEnds(s: string, t: string, i: int)
    ensures ArrowAt(Ends(s, t), i) <==> ArrowAt(s, i) || i == |s| || ArrowAt(t, i - |s| - 2)
  {
    var e := Ends(s, t);
    assert forall k :: 0 <= k < |s| ==> e[k] == s[k];
    assert e[|s|] == '-' && e[|s| + 1] == '>';
    assert forall k :: 0 <= k < |t| ==> e[|s| + 2 + k] == t[k];
  }

  /** The ends decode uniquely when no source id contains an arrow. */
  lemma EndsDecode(s: string, t: string, s': string, t': string)
    requires !HasArrow(s) && !HasArrow(s') && Ends(s, t) == Ends(s', t')
    ensures s == s' && t == t'
  {
    ArrowsOfEnds(s, t, |s'|);
    ArrowsOfEnds(s', t', |s'|);
    ArrowsOfEnds(s, t, |s|);
    ArrowsOfEnds(s', t', |s|);
    assert |s| == |s'|;
    assert Ends(s, t)[..|s|] == s && Ends(s', t')[..|s'|] == s';
    assert Ends(s, t)[|s| + 2..] == t && Ends(s', t')[|s'| + 2..] == t';
  }

  /** Joined ends decode in one way only exactly when neither end contains an arrow. */
  lemma EndsDecodeExactlyWhen(s: string, t: string)
    ensures (forall s', t' :: Ends(s', t') == Ends(s, t) ==> s' == s && t' == t) <==> !HasArrow(s) && !HasArrow(t)
  {
    if HasArrow(s) {
      var i :| 0 <= i < |s| && ArrowAt(s, i);
      var a, b := s[..i], s[i + 2..];
      assert s == a + "->" + b;
      ArrowMoves(a, b, t);
      assert a != s && Ends(a, b + "->" + t) == Ends(s, t);
    } else if HasArrow(t) {
      var i :| 0 <= i < |t| && ArrowAt(t, i);
      var b, c := t[..i], t[i + 2..];
      assert t == b + "->" + c;
      ArrowMoves(s, b, c);
      assert |s + "->" + b| > |s| && Ends(s + "->" + b, c) == Ends(s, t);
    } else {
      forall s', t' | Ends(s', t') == Ends(s, t) ensures s' == s && t' == t {
        ArrowsOfEnds(s, t, |s'|);
        ArrowsOfEnds(s', t', |s'|);
        assert !ArrowAt(s, |s'|) && !ArrowAt(t, |s'| - |s| - 2);
        assert |s'| == |s|;
        assert Ends(s, t)[..|s|] == s && Ends(s', t')[..|s'|] == s';
        assert Ends(s, t)[|s| + 2..] == t && Ends(s', t')[|s'| + 2..] == t';
      }
    }
  }

  lemma ArrowMoves(a: string, b: string, c: string)
    ensures Ends(a + "->" + b, c) == Ends(a, b + "->" + c)
  {
    assert (a + "->" + b) + "->" + c == a + "->" + (b + "->" + c);
  }

  /** Edge ids are injective on source ids without an arrow. */
  lemma EdgeIdInjective(s: string, t: string, p: string, c: string, s': string, t': string, p': string, c': string)
    requires !HasArrow(s) && !HasArrow(s') && Plain(p) && Plain(c) && Plain(p') && Plain(c')
    requires EdgeId(s, t, p, c) == EdgeId(s', t', p', c')
    ensures s == s' && t == t' && p == p' && c == c'
  {
    EdgeIdsMeet(s, t, p, c, s', t', p', c');
    EndsDecode(s, t, s', t');
  }

  /** With an arrow in a source id, two different edges share an id: it may stand on either side. */
  lemma ArrowInIdCollides(s: string, t: string, p: string, scope: string)
    requires HasArrow(s)
    ensures exists s', t' :: s' != s && !HasArrow(s') && EdgeId(s', t', p, scope) == EdgeId(s, t, p, scope)
  {
    var i := FirstArrow(s);
    var a, b := s[..i], s[i + 2..];
    assert s == a + "->" + b;
    ArrowMoves(a, b, t);
    assert !HasArrow(a) by {
      if j :| 0 <= j < |a| && ArrowAt(a, j) { assert ArrowAt(s, j); }
    }
    assert EdgeId(a, b + "->" + t, p, scope) == EdgeId(s, t, p, scope);
  }

  lemma {:induction false} FirstArrow(s: string) returns (i: nat)
    requires HasArrow(s)
    ensures i < |s| && ArrowAt(s, i) && forall j :: 0 <= j < i ==> !ArrowAt(s, j)
  {
    i := 0;
    while !ArrowAt(s, i)
      invariant i <= |s| && forall j :: 0 <= j < i ==> !ArrowAt(s, j)
      decreases |s| - i
    {
      assert i < |s|;
      i := i + 1;
    }
  }

  /** A reachability edge never shares its id with a traffic edge. */
  lemma FamiliesDisjoint(s: string, t: string, p: string, s': string, t': string, p': string, scope: string)
    requires IsProtocol(p) && IsProtocol(p') && IsScope(scope)
    ensures EdgeId(s, t, p, REACHABILITY) != EdgeId(s', t', p', scope)
  {
    NamesArePlain(p);
    NamesArePlain(p');
    NamesArePlain(scope);
    NamesArePlain(REACHABILITY);
    EdgeIdsMeet(s, t, p, REACHABILITY, s', t', p', scope);
    assert REACHABILITY[0] == 'r' && scope[0] != 'r';
  }

  // ---------------------------------------------------------------- the ids the code builds

  predicate IsHexDigit(c: char) { '0' <= c <= '9' || 'a' <= c <= 'f' }

  /** A VM id as registration makes it: a prefix and a hexadecimal digest. */
  predicate IsVmId(s: string) { |s| >= 3 && s[..3] == "vm-" && forall i :: 3 <= i < |s| ==> IsHexDigit(s[i]) }

  /** An address as the database prints it. */
  predicate IsIpText(s: string) { forall i :: 0 <= i < |s| ==> IsHexDigit(s[i]) || s[i] == '.' || s[i] == ':' }

  /** On such addresses the replacement loses nothing. */
  lemma NodeSafeInjective(a: string, b: string)
    requires IsIpText(a) && IsIpText(b) && NodeSafe(a) == NodeSafe(b)
    ensures a == b
  {
    assert |NodeSafe(a)| == |a| && |NodeSafe(b)| == |b|;
    forall i | 0 <= i < |a| ensures a[i] == b[i] {
      assert NodeSafe(a)[i] == SafeChar(a[i]) && NodeSafe(b)[i] == SafeChar(b[i]);
    }
  }

  lemma NodeSafeChars(ip: string, i: nat)
    requires IsIpText(ip) && i < |ip|
    ensures IsHexDigit(NodeSafe(ip)[i]) || NodeSafe(ip)[i] == '.' || NodeSafe(ip)[i] == '_'
  {
  }

  const SOURCE_PREFIX := "unknown-source-"
  const UNKNOWN_PREFIX := "unknown-"
  const INTERNAL_PREFIX := "unknown-internal-"
  const EXTERNAL_PREFIX := "external-"

  predicate IsTargetPrefix(p: string) { p == UNKNOWN_PREFIX || p == INTERNAL_PREFIX || p == EXTERNAL_PREFIX }

  /** A node id that is built from an address. */
  function AddressId(prefix: string, ip: string): string { prefix + NodeSafe(ip) }

  lemma AddressIdHasNoArrow(prefix: string, ip: string)
    requires (prefix == SOURCE_PREFIX || IsTargetPrefix(prefix)) && IsIpText(ip)
    ensures !HasArrow(AddressId(prefix, ip))
    ensures !IsVmId(AddressId(prefix, ip))
  {
    forall i | 0 <= i < |NodeSafe(ip)| ensures NodeSafe(ip)[i] != '>' { NodeSafeChars(ip, i); }
    NoHeadNoArrow(AddressId(prefix, ip));
    assert AddressId(prefix, ip)[0] == prefix[0] != 'v';
  }

  lemma VmIdHasNoArrow(id: string)
    requires IsVmId(id)
    ensures !HasArrow(id)
  {
    forall i | 0 <= i < |id| ensures id[i] != '>' {
      if i < 3 { assert id[i] == id[..3][i] == "vm-"[i]; }
    }
    NoHeadNoArrow(id);
  }

  /** An address seen as a source and an address seen as a target are never one node. */
  lemma SourceIsNotTarget(prefix: string, a: string, b: string)
    requires IsTargetPrefix(prefix) && IsIpText(a) && IsIpText(b)
    ensures AddressId(SOURCE_PREFIX, a) != AddressId(prefix, b)
  {
    var s, t := AddressId(SOURCE_PREFIX, a), AddressId(prefix, b);
    assert s[8] == SOURCE_PREFIX[8] == 's';
    if prefix != UNKNOWN_PREFIX {
      assert t[8] == prefix[8];
    } else if |b| > 0 {
      NodeSafeChars(b, 0);
      assert t[8] == NodeSafe(b)[0];
    }
  }

  /** Address nodes of targets are one node exactly when class and address are the same. */
  lemma TargetAddressesMeet(p: string, a: string, q: string, b: string)
    requires IsTargetPrefix(p) && IsTargetPrefix(q) && IsIpText(a) && IsIpText(b)
    ensures AddressId(p, a) == AddressId(q, b) <==> p == q && a == b
  {
    if AddressId(p, a) == AddressId(q, b) {
      if p != q {
        if p == EXTERNAL_PREFIX || (p == UNKNOWN_PREFIX && q == INTERNAL_PREFIX) {
          PrefixesDiffer(p, a, q, b);
        } else {
          PrefixesDiffer(q, b, p, a);
        }
      }
      assert AddressId(p, a)[|p|..] == NodeSafe(a) && AddressId(q, b)[|q|..] == NodeSafe(b);
      NodeSafeInjective(a, b);
    }
  }

  lemma PrefixesDiffer(p: string, a: string, q: string, b: string)
    requires IsTargetPrefix(p) && IsTargetPrefix(q) && IsIpText(a) && IsIpText(b)
    requires p == EXTERNAL_PREFIX != q || (p == UNKNOWN_PREFIX && q == INTERNAL_PREFIX)
    ensures AddressId(p, a) != AddressId(q, b)
  {
    var s, t := AddressId(p, a), AddressId(q, b);
    if p == EXTERNAL_PREFIX {
      assert s[0] == p[0] == 'e' && t[0] == q[0] == 'u';
    } else {
      assert t[8] == q[8] == 'i';
      if |a| > 0 {
        NodeSafeChars(a, 0);
        assert s[8] == NodeSafe(a)[0];
      }
    }
  }

  lemma SourceAddressesMeet(a: string, b: string)
    requires IsIpText(a) && IsIpText(b)
    ensures AddressId(SOURCE_PREFIX, a) == AddressId(SOURCE_PREFIX, b) <==> a == b
  {
    if AddressId(SOURCE_PREFIX, a) == AddressId(SOURCE_PREFIX, b) {
      assert AddressId(SOURCE_PREFIX, a)[|SOURCE_PREFIX|..] == NodeSafe(a);
      assert AddressId(SOURCE_PREFIX, b)[|SOURCE_PREFIX|..] == NodeSafe(b);
      NodeSafeInjective(a, b);
    }
  }
}
