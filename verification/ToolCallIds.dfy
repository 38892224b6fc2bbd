/** The ids `agent/tool_cache.py` gives tool calls: a digest of "tool:args:scope:version". */
module ToolCallIds {
  import opened Collections
  import opened ObjectTypes

  type Digest = string -> string

  predicate ColonFree(s: string) { ':' !in s }

  predicate IsHash(s: string) { |s| == 16 && ColonFree(s) }

  /** The digest's outputs: sixteen hexadecimal digits, so free of colons and dots. */
  ghost predicate YieldsHex(digest: Digest) {
    forall s :: |digest(s)| == 16 && forall c :: c in digest(s) ==> '0' <= c <= '9' || 'a' <= c <= 'f'
  }

  function ScopeName(scope: Scope): (name: string)
    ensures ColonFree(name) && 0 < |name| <= 8
  {
    match scope
    case Public => "public"
    case Session => "session"
    case User => "user"
    case Workflow => "workflow"
    case Private => "private"
  }

  /** The payload up to the version. */
  function Head(tool: string, hash: string, scope: Scope): string {
    tool + ":" + hash + ":" + ScopeName(scope) + ":"
  }

  function Payload(tool: string, hash: string, scope: Scope, version: string): string {
    Head(tool, hash, scope) + version
  }

  /** The hashed text of a call, with the scope by its name. */
  lemma PayloadReads(tool: string, hash: string, scope: Scope, version: string)
    ensures Payload(tool, hash, scope, version) == tool + ":" + hash + ":" + ScopeName(scope) + ":" + version
    ensures ScopeName(scope) == match scope
                                case Public => "public"
                                case Session => "session"
                                case User => "user"
                                case Workflow => "workflow"
                                case Private => "private"
  {
  }

  function ToolCallId(digest: Digest, tool: string, hash: string, scope: Scope, version: string): string {
    digest(Payload(tool, hash, scope, version))
  }

  lemma ScopeNameInjective(s: Scope, t: Scope)
    requires ScopeName(s) == ScopeName(t)
    ensures s == t
  {
    assert ScopeName(s)[0] == ScopeName(t)[0] && ScopeName(s)[1] == ScopeName(t)[1];
  }

  lemma Cancel(p: string, x: string, y: string)
    requires p + x == p + y
    ensures x == y
  {
    assert x == (p + x)[|p|..] && y == (p + y)[|p|..];
  }

  /** A string splits in one way at its first colon. */
  lemma CutAtColon(a: string, b: string, a': string, b': string)
    requires ColonFree(a) && ColonFree(a') && a + ":" + b == a' + ":" + b'
    ensures a == a' && b == b'
  {
    var s := a + ":" + b;
    assert s[|a|] == ':' && s[|a'|] == ':';
    assert forall i :: 0 <= i < |a| ==> s[i] == a[i];
    assert forall i :: 0 <= i < |a'| ==> s[i] == a'[i];
    assert |a| == |a'|;
    assert a == s[..|a|] && a' == s[..|a'|];
    assert b == s[|a| + 1..] && b' == s[|a'| + 1..];
  }

  lemma {:induction false} SplitAtColon(w: string) returns (a: string, b: string)
    requires !ColonFree(w)
    ensures ColonFree(a) && w == a + ":" + b
  {
    if w[0] == ':' {
      a, b := "", w[1..];
    } else {
      assert w == [w[0]] + w[1..];
      a, b := SplitAtColon(w[1..]);
      a := [w[0]] + a;
    }
  }

  function Tail(hash: string, scope: Scope, version: string): string {
    hash + ":" + (ScopeName(scope) + ":" + version)
  }

  lemma PayloadParts(tool: string, hash: string, scope: Scope, version: string)
    ensures Payload(tool, hash, scope, version) == tool + ":" + Tail(hash, scope, version)
  {
  }

  /** For one tool name the payload determines the rest. */
  lemma PayloadOfOneTool(tool: string, h: string, s: Scope, v: string, h': string, s': Scope, v': string)
    requires IsHash(h) && IsHash(h') && Payload(tool, h, s, v) == Payload(tool, h', s', v')
    ensures h == h' && s == s' && v == v'
  {
    PayloadParts(tool, h, s, v);
    PayloadParts(tool, h', s', v');
    Cancel(tool + ":", Tail(h, s, v), Tail(h', s', v'));
    CutAtColon(h, ScopeName(s) + ":" + v, h', ScopeName(s') + ":" + v');
    CutAtColon(ScopeName(s), v, ScopeName(s'), v');
    ScopeNameInjective(s, s');
  }

  /** `longer` starts with `shorter`, a hash and a scope, so its payloads can imitate `shorter`'s. */
  ghost predicate Nests(shorter: string, longer: string) {
    exists h, s :: IsHash(h) && Head(shorter, h, s) <= longer + ":"
  }

  ghost predicate CanCollide(t: string, t': string) {
    exists h, s, v, h', s', v' :: IsHash(h) && IsHash(h') && Payload(t, h, s, v) == Payload(t', h', s', v')
  }

  lemma NestedCollide(t: string, t': string)
    requires Nests(t, t')
    ensures CanCollide(t, t')
  {
    var h, s :| IsHash(h) && Head(t, h, s) <= t' + ":";
    var h' := "0000000000000000";
    assert IsHash(h');
    var rest := Tail(h', Public, "");
    var gap := Filler(Head(t, h, s), t' + ":", rest);
    PayloadParts(t', h', Public, "");
    assert Payload(t, h, s, gap) == Payload(t', h', Public, "");
  }

  lemma Filler(head: string, whole: string, rest: string) returns (gap: string)
    requires head <= whole
    ensures head + gap == whole + rest
  {
    gap := whole[|head|..] + rest;
    assert head + whole[|head|..] == whole;
  }

  lemma CollidingNest(t: string, h: string, s: Scope, v: string, t': string, h': string, s': Scope, v': string)
    requires IsHash(h) && IsHash(h') && Payload(t, h, s, v) == Payload(t', h', s', v')
    requires |t| <= |t'| && t != t'
    ensures Nests(t, t')
  {
    PayloadParts(t, h, s, v);
    PayloadParts(t', h', s', v');
    var w := BeyondShorter(t, Tail(h, s, v), t', Tail(h', s', v'));
    ContinuationHoldsHashAndScope(h, ScopeName(s), v, w, h', ScopeName(s') + ":" + v');
    assert Head(t, h, s) == t + ":" + (h + ":" + ScopeName(s) + ":");
    assert t' + ":" == t + ":" + (w + ":");
  }

  /** If a payload's tail is also `w` followed by another tail, `w` covers its hash and scope. */
  lemma ContinuationHoldsHashAndScope(h: string, name: string, v: string, w: string, h': string, rest: string)
    requires IsHash(h) && IsHash(h') && ColonFree(name) && |name| < 16
    requires h + ":" + (name + ":" + v) == w + ":" + (h' + ":" + rest)
    ensures h + ":" + name + ":" <= w + ":"
  {
    var tail := h' + ":" + rest;
    if ColonFree(w) {
      CutAtColon(h, name + ":" + v, w, tail);
      CutAtColon(name, v, h', rest);
      assert false;
    } else {
      var a, b := SplitAtColon(w);
      assert w + ":" + tail == a + ":" + (b + ":" + tail);
      CutAtColon(h, name + ":" + v, a, b + ":" + tail);
      ScopeEndsName(name, v, b, tail);
      assert w + ":" == h + ":" + (b + ":");
    }
  }

  /** Of two tool names heading one payload, the longer continues the shorter after a colon. */
  lemma BeyondShorter(t: string, rest: string, t': string, rest': string) returns (w: string)
    requires t + ":" + rest == t' + ":" + rest' && |t| <= |t'| && t != t'
    ensures t' == t + ":" + w && rest == w + ":" + rest'
  {
    var p := t + ":" + rest;
    assert t == p[..|t|] && t' == p[..|t'|];
    assert |t| < |t'|;
    assert t'[|t|] == p[|t|] == ':';
    w := t'[|t| + 1..];
    assert t' == t + ":" + w;
    assert t + ":" + rest == t + ":" + (w + ":" + rest');
    Cancel(t + ":", rest, w + ":" + rest');
  }

  lemma ScopeEndsName(name: string, v: string, b: string, rest: string)
    requires ColonFree(name) && name + ":" + v == b + ":" + rest
    ensures name + ":" <= b + ":"
  {
    if ColonFree(b) {
      CutAtColon(name, v, b, rest);
    } else {
      var x, y := SplitAtColon(b);
      assert b + ":" + rest == x + ":" + (y + ":" + rest);
      CutAtColon(name, v, x, y + ":" + rest);
    }
  }

  /** Two tools can be given one id exactly when one's name nests in the other's. */
  lemma CollideExactlyWhenNested(t: string, t': string)
    requires t != t'
    ensures CanCollide(t, t') || CanCollide(t', t) <==> Nests(t, t') || Nests(t', t)
  {
    if Nests(t, t') {
      NestedCollide(t, t');
    }
    if Nests(t', t) {
      NestedCollide(t', t);
    }
    forall h, s, v, h', s', v' | IsHash(h) && IsHash(h') && Payload(t, h, s, v) == Payload(t', h', s', v')
      ensures Nests(t, t') || Nests(t', t)
    {
      if |t| <= |t'| {
        CollidingNest(t, h, s, v, t', h', s', v');
      } else {
        CollidingNest(t', h', s', v', t, h, s, v);
      }
    }
  }

  lemma ColonFreeNeverNests(shorter: string, longer: string)
    requires ColonFree(longer)
    ensures !Nests(shorter, longer)
  {
    forall h, s ensures !(Head(shorter, h, s) <= longer + ":") {
      assert Head(shorter, h, s)[|shorter|] == ':';
    }
  }

  /** Where the digest tells two payloads apart, their ids tell apart calls whose tool names do not nest. */
  lemma IdsAreDistinct(digest: Digest, t: string, h: string, s: Scope, v: string,
                       t': string, h': string, s': Scope, v': string)
    requires InjectiveOn(digest, {Payload(t, h, s, v), Payload(t', h', s', v')})
    requires IsHash(h) && IsHash(h') && !Nests(t, t') && !Nests(t', t)
    requires ToolCallId(digest, t, h, s, v) == ToolCallId(digest, t', h', s', v')
    ensures t == t' && h == h' && s == s' && v == v'
  {
    if t == t' {
      PayloadOfOneTool(t, h, s, v, h', s', v');
    } else if |t| <= |t'| {
      CollidingNest(t, h, s, v, t', h', s', v');
    } else {
      CollidingNest(t', h', s', v', t, h, s, v);
    }
  }
}
