// A codec that meets the journal's laws: the laws ask for nothing impossible.
module UnaryCodec {
  import opened Basics
  import opened Bytes
  import opened Journal

  /** A command that says nothing. */
  datatype Touch = Touch

  const OPEN: byte := 123
  const CLOSE: byte := 125
  const V: byte := 118
  const S: byte := 115

  function Repeat(b: byte, n: nat): (s: Text)
    ensures |s| == n && forall i :: 0 <= i < n ==> s[i] == b
  {
    if n == 0 then [] else [b] + Repeat(b, n - 1)
  }

  /** How many times `b` stands from `i` on. */
  function Length(s: Text, i: nat, b: byte): (n: nat)
    requires i <= |s|
    ensures i + n <= |s| && (forall j :: i <= j < i + n ==> s[j] == b) && (i + n < |s| ==> s[i + n] != b)
    decreases |s| - i
  {
    if i == |s| || s[i] != b then 0 else 1 + Length(s, i + 1, b)
  }

  function Encode(r: Record<Touch>): Text {
    [OPEN] + Repeat(V, r.version) + Repeat(S, r.sequence) + [CLOSE]
  }

  function Decode(s: Text): Option<Record<Touch>> {
    if |s| < 2 || s[0] != OPEN || s[|s| - 1] != CLOSE then None else
      var v := Length(s, 1, V);
      var q := Length(s, 1 + v, S);
      if 1 + v + q == |s| - 1 then Some(Record(v, q, Touch)) else None
  }

  lemma Shape(r: Record<Touch>, i: nat)
    requires i < |Encode(r)|
    ensures |Encode(r)| == r.version + r.sequence + 2
    ensures Encode(r)[i] == if i == 0 then OPEN else if i <= r.version then V else if i <= r.version + r.sequence then S else CLOSE
  {
    var v, q := Repeat(V, r.version), Repeat(S, r.sequence);
    if 0 < i <= r.version {
      assert Encode(r)[i] == v[i - 1];
    } else if r.version < i <= r.version + r.sequence {
      assert Encode(r)[i] == q[i - 1 - r.version];
    }
  }

  lemma RoundTrip(r: Record<Touch>)
    ensures Decode(Encode(r)) == Some(r)
  {
    var s := Encode(r);
    assert |s| > 0;
    forall i | 0 <= i < |s|
      ensures s[i] == if i == 0 then OPEN else if i <= r.version then V else if i <= r.version + r.sequence then S else CLOSE
    {
      Shape(r, i);
    }
    hide Encode;
    assert |s| == r.version + r.sequence + 2 by { Shape(r, 0); }
    assert s[1 + r.version] != V && s[1 + r.version + r.sequence] != S;
    assert Length(s, 1, V) == r.version;
    assert Length(s, 1 + r.version, S) == r.sequence;
    assert r.command.Touch?;
  }

  /** What decodes holds nothing but the two counts between its ends. */
  lemma Inside(s: Text, i: nat)
    requires Decode(s).Some? && 0 < i < |s| - 1
    ensures s[i] == V || s[i] == S
  {
  }

  lemma TornIsUnreadable(r: Record<Touch>, k: nat)
    requires k < |Encode(r)|
    ensures Decode(Encode(r)[..k]) == None
  {
    if k > 0 { Shape(r, k - 1); }
    hide Encode, Length;
  }

  lemma JoinedIsUnreadable(r: Record<Touch>, q: Record<Touch>, k: nat)
    requires 0 < k <= |Encode(r)|
    ensures Decode(Encode(r)[..k] + Encode(q)) == None
  {
    var s := Encode(r)[..k] + Encode(q);
    Shape(q, 0);
    assert s[k] == OPEN;
    hide Encode, Decode;
    if Decode(s).Some? { Inside(s, k); }
  }

  lemma IsLawful() returns (codec: Codec<Touch>)
    ensures Lawful(codec)
  {
    codec := Codec(Encode, Decode);
    forall r ensures Decode(Encode(r)) == Some(r) && OneLine(Encode(r)) && !Blank(Encode(r)) {
      RoundTrip(r);
      Shape(r, 0);
      forall i | 0 <= i < |Encode(r)| ensures Encode(r)[i] != NEWLINE {
        Shape(r, i);
      }
    }
    forall r: Record<Touch>, k: nat | 0 <= k < |Encode(r)| ensures Decode(Encode(r)[..k]) == None {
      TornIsUnreadable(r, k);
    }
    forall r: Record<Touch>, q: Record<Touch>, k: nat | 0 < k <= |Encode(r)| ensures Decode(Encode(r)[..k] + Encode(q)) == None {
      JoinedIsUnreadable(r, q, k);
    }
  }
}
