/** What the secrets presented with a request prove.  `tagFor` is the one-way
    function from a queue secret to its tag. */
module Capability {
  import opened Common
  import opened Text
  import opened QueueModel

  const MAX_CAPABILITIES := 4

  /** The secrets that say something, in the order presented. */
  function NonBlank(secrets: seq<string>): seq<string> {
    if secrets == [] then []
    else
      var rest, last := NonBlank(secrets[..|secrets| - 1]), Trim(secrets[|secrets| - 1]);
      if last == "" then rest else rest + [last]
  }

  lemma {:induction false} NonBlankPrefix(secrets: seq<string>, n: nat)
    requires n <= |secrets|
    ensures NonBlank(secrets[..n]) <= NonBlank(secrets)
  {
    if n < |secrets| {
      NonBlankPrefix(secrets[..|secrets| - 1], n);
      assert secrets[..|secrets| - 1][..n] == secrets[..n];
    } else {
      assert secrets[..n] == secrets;
    }
  }

  function Tags(tagFor: string -> string, secrets: seq<string>): seq<string> {
    seq(|secrets|, i requires 0 <= i < |secrets| => tagFor(secrets[i]))
  }

  /** The secrets that are looked at. */
  function Presented(secrets: seq<string>): seq<string> {
    var s := NonBlank(secrets);
    s[..Min(|s|, MAX_CAPABILITIES)]
  }

  /** Only the first four secrets that are not blank count, and the result
      authorizes exactly what they prove. */
  method NewAuth(tagFor: string -> string, secrets: seq<string>, allowUntagged: bool) returns (auth: Auth)
    ensures auth == Auth(Tags(tagFor, Presented(secrets)), allowUntagged, false)
    ensures forall tag | tag != "" :: auth.Permits(tag) <==> exists s :: s in Presented(secrets) && tagFor(s) == tag
    ensures auth.Permits("") <==> allowUntagged
  {
    var tags: seq<string> := [];
    var i := 0;
    while i < |secrets|
      invariant 0 <= i <= |secrets| && |tags| < MAX_CAPABILITIES
      invariant tags == Tags(tagFor, NonBlank(secrets[..i]))
    {
      var secret := Trim(secrets[i]);
      assert secrets[..i + 1][..i] == secrets[..i];
      NonBlankPrefix(secrets, i + 1);
      if secret != "" {
        tags := tags + [tagFor(secret)];
        if |tags| == MAX_CAPABILITIES { break; }
      }
      i := i + 1;
    }
    assert i == |secrets| ==> secrets[..i] == secrets;
    assert tags == Tags(tagFor, Presented(secrets));
    auth := Auth(tags, allowUntagged, false);
    forall tag | tag != ""
      ensures auth.Permits(tag) <==> exists s :: s in Presented(secrets) && tagFor(s) == tag
    {
      TagOfSome(tagFor, Presented(secrets), tag);
    }
  }

  lemma TagOfSome(tagFor: string -> string, secrets: seq<string>, tag: string)
    ensures tag in Tags(tagFor, secrets) <==> exists s :: s in secrets && tagFor(s) == tag
  {
    var tags := Tags(tagFor, secrets);
    if tag in tags {
      var i :| 0 <= i < |tags| && tags[i] == tag;
      assert secrets[i] in secrets && tagFor(secrets[i]) == tag;
    }
    if s :| s in secrets && tagFor(s) == tag {
      var i :| 0 <= i < |secrets| && secrets[i] == s;
      assert tags[i] == tag;
    }
  }

  /** How many of the secrets are not blank. */
  function Telling(secrets: seq<string>): nat {
    if secrets == [] then 0
    else Telling(secrets[..|secrets| - 1]) + if Trim(secrets[|secrets| - 1]) == "" then 0 else 1
  }

  lemma {:induction false} NonBlankAt(secrets: seq<string>, i: nat)
    requires i < |secrets| && Trim(secrets[i]) != ""
    ensures |NonBlank(secrets)| == Telling(secrets)
    ensures Telling(secrets[..i]) < Telling(secrets) && NonBlank(secrets)[Telling(secrets[..i])] == Trim(secrets[i])
  {
    var n := |secrets| - 1;
    NonBlankCount(secrets);
    NonBlankCount(secrets[..n]);
    if i < n {
      assert secrets[..n][..i] == secrets[..i];
      NonBlankAt(secrets[..n], i);
    }
  }

  lemma {:induction false} NonBlankCount(secrets: seq<string>)
    ensures |NonBlank(secrets)| == Telling(secrets)
  {
    if secrets != [] { NonBlankCount(secrets[..|secrets| - 1]); }
  }

  lemma {:induction false} NonBlankFrom(secrets: seq<string>, k: nat) returns (i: nat)
    requires k < |NonBlank(secrets)|
    ensures i < |secrets| && Trim(secrets[i]) == NonBlank(secrets)[k] != "" && Telling(secrets[..i]) == k
  {
    var n := |secrets| - 1;
    NonBlankCount(secrets[..n]);
    if k < |NonBlank(secrets[..n])| {
      i := NonBlankFrom(secrets[..n], k);
      assert secrets[..n][..i] == secrets[..i];
    } else {
      i := n;
    }
  }

  /** The place `i` holds a secret that says something, with fewer than four before it. */
  predicate Heard(secrets: seq<string>, i: nat, secret: string) {
    i < |secrets| && Trim(secrets[i]) == secret && secret != "" && Telling(secrets[..i]) < 4
  }

  /** The secrets that count are exactly the first four that are not blank, trimmed. */
  lemma PresentedIff(secrets: seq<string>, secret: string)
    ensures secret in Presented(secrets) <==> exists i: nat :: Heard(secrets, i, secret)
  {
    NonBlankCount(secrets);
    var all := NonBlank(secrets);
    if secret in Presented(secrets) {
      var k :| 0 <= k < |Presented(secrets)| && Presented(secrets)[k] == secret;
      var i := NonBlankFrom(secrets, k);
      assert Heard(secrets, i, secret);
    }
    forall i: nat | Heard(secrets, i, secret)
      ensures secret in Presented(secrets)
    {
      NonBlankAt(secrets, i);
      assert Presented(secrets)[Telling(secrets[..i])] == secret;
    }
  }
}
