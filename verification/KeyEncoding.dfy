/**
 The bytes DeterministicKey hashes (resilient/retry.go): each part preceded by
 its length in decimal and a colon. Strings are byte strings; the hash itself
 is not part of this model.
 */
module KeyEncoding {
  import opened Decimal

  function Block(part: string): string { Digits(|part|) + ":" + part }

  function Preimage(parts: seq<string>): string {
    if parts == [] then "" else Preimage(parts[..|parts| - 1]) + Block(parts[|parts| - 1])
  }

  method FeedHash(parts: seq<string>) returns (fed: string)
    ensures fed == Preimage(parts)
  {
    fed := "";
    for i := 0 to |parts|
      invariant fed == Preimage(parts[..i])
    {
      assert parts[..i + 1][..i] == parts[..i];
      fed := fed + Block(parts[i]);
    }
    assert parts[..|parts|] == parts;
  }

  lemma {:induction false} FrontFirst(parts: seq<string>)
    requires parts != []
    ensures Preimage(parts) == Block(parts[0]) + Preimage(parts[1..])
  {
    var n := |parts| - 1;
    if n == 0 {
      assert parts[..0] == [] && parts[1..] == [];
    } else {
      assert parts[..n][1..] == parts[1..][..n - 1];
      FrontFirst(parts[..n]);
      var first, mid, last := Block(parts[0]), Preimage(parts[1..][..n - 1]), Block(parts[n]);
      assert (first + mid) + last == first + (mid + last);
    }
  }

  /** A block read from the front can only be read one way. */
  lemma BlocksArePrefixFree(p: string, x: string, q: string, y: string)
    requires Block(p) + x == Block(q) + y
    ensures p == q && x == y
  {
    var a, b := Digits(|p|), Digits(|q|);
    var m := Block(p) + x;
    DigitsAreDigits(|p|);
    DigitsAreDigits(|q|);
    assert m[|a|] == ':' && m[|b|] == ':';
    forall i | 0 <= i < |a| ensures m[i] != ':' { assert m[i] == a[i] && a[i] in a; }
    forall i | 0 <= i < |b| ensures m[i] != ':' { assert m[i] == b[i] && b[i] in b; }
    assert |a| == |b|;
    assert a == m[..|a|] && b == m[..|a|];
    DigitsInjective(|p|, |q|);
    assert p == m[|a| + 1..|a| + 1 + |p|] && q == m[|a| + 1..|a| + 1 + |p|];
    assert x == m[|a| + 1 + |p|..] && y == m[|a| + 1 + |p|..];
  }

  /** Different lists of parts, whatever digits and colons they contain, feed different bytes. */
  lemma {:induction false} PreimageInjective(parts: seq<string>, others: seq<string>)
    requires Preimage(parts) == Preimage(others)
    ensures parts == others
  {
    if parts != [] && others != [] {
      FrontFirst(parts);
      FrontFirst(others);
      BlocksArePrefixFree(parts[0], Preimage(parts[1..]), others[0], Preimage(others[1..]));
      PreimageInjective(parts[1..], others[1..]);
      assert parts == [parts[0]] + parts[1..] && others == [others[0]] + others[1..];
    } else if parts != [] {
      FrontFirst(parts);
    } else if others != [] {
      FrontFirst(others);
    }
  }
}
