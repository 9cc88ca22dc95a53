/** How route objects and DNS records are named from a hostname and the zone
    (internal/kinds/capp/resourcemanagers/helpers.go). */
module Naming {
  import opened Objects
  import opened Text

  /** The hostname, completed with the zone (less one trailing dot) unless it already ends in it. */
  function GenerateResourceName(hostname: string, suffix: string): string {
    var bare := TrimSuffix(suffix, ".");
    if !HasSuffix(hostname, bare) then hostname + "." + bare else hostname
  }

  /** The hostname with `|suffix|` characters cut from its end when it ends in the zone. The Go
      slice expression panics when the hostname is shorter than the zone: `None`. */
  function GenerateRecordName(hostname: string, suffix: string): Option<string> {
    var bare := TrimSuffix(suffix, ".");
    if !HasSuffix(hostname, bare) then Some(hostname)
    else if |hostname| < |suffix| then None
    else Some(hostname[..|hostname| - |suffix|])
  }

  function GenerateTLSSecretName(resourceName: string): string {
    resourceName + "-tls"
  }

  lemma TrimDot(bare: string)
    ensures TrimSuffix(bare + ".", ".") == bare
  {
    assert (bare + ".")[|bare|..] == ".";
    assert (bare + ".")[..|bare|] == bare;
  }

  lemma CompletedEndsInZone(hostname: string, bare: string)
    ensures HasSuffix(hostname + "." + bare, bare)
    ensures HasSuffix(hostname + "." + bare, "." + bare)
  {
    var s := hostname + "." + bare;
    assert s[|s| - |bare|..] == bare;
    assert s[|s| - |bare| - 1..] == "." + bare;
  }

  /** A resource name ends in the zone: it is the hostname, completed only if it does not end in the zone already. */
  lemma ResourceNameEndsInZone(hostname: string, bare: string)
    ensures var name := GenerateResourceName(hostname, bare + ".");
      HasSuffix(name, bare) && name == if HasSuffix(hostname, bare) then hostname else hostname + "." + bare
  {
    TrimDot(bare);
    CompletedEndsInZone(hostname, bare);
  }

  /** The record of a hostname that ends in the zone is the hostname less the zone and one more character, whatever that
      character is. */
  lemma RecordNameCuts(hostname: string, bare: string)
    requires hostname != bare
    ensures var record := GenerateRecordName(hostname, bare + ".");
      record.Some? && record.value <= hostname
      && |hostname| - |record.value| == if HasSuffix(hostname, bare) then |bare| + 1 else 0
  {
    TrimDot(bare);
    RecordNamePanicsIff(hostname, bare);
  }

  /** Naming a resource after a resource name changes nothing, for every zone. */
  lemma ResourceNameIdempotent(hostname: string, suffix: string)
    ensures GenerateResourceName(GenerateResourceName(hostname, suffix), suffix)
         == GenerateResourceName(hostname, suffix)
  {
    CompletedEndsInZone(hostname, TrimSuffix(suffix, "."));
  }

  lemma SuffixCut(hostname: string, bare: string)
    requires |bare| < |hostname|
    ensures HasSuffix(hostname, "." + bare) <==> hostname[..|hostname| - |bare| - 1] + "." + bare == hostname
  {
    var cut := |hostname| - |bare| - 1;
    var record := hostname[..cut];
    assert hostname == record + hostname[cut..];
    if HasSuffix(hostname, "." + bare) {
      assert record + "." + bare == record + ("." + bare);
    }
    if record + "." + bare == hostname {
      CompletedEndsInZone(record, bare);
    }
  }

  /** The record name and the zone make up the resource name again exactly when the hostname does
      not end in the zone at all, or ends in it at a label boundary. Otherwise a character of the
      hostname is lost, or, when the hostname is the zone itself, the operator panics. */
  lemma RecordNameCompletesIff(hostname: string, bare: string)
    ensures (match GenerateRecordName(hostname, bare + ".")
               case Some(record) => record + "." + bare == GenerateResourceName(hostname, bare + ".")
               case None => false)
       <==> (!HasSuffix(hostname, bare) || HasSuffix(hostname, "." + bare))
  {
    TrimDot(bare);
    if HasSuffix(hostname, bare) && |bare| < |hostname| {
      SuffixCut(hostname, bare);
    }
  }

  /** Deriving a record name panics exactly for a hostname that is the zone itself. */
  lemma RecordNamePanicsIff(hostname: string, bare: string)
    ensures GenerateRecordName(hostname, bare + ".").None? <==> hostname == bare
  {
    TrimDot(bare);
    if |hostname| == |bare| {
      assert hostname[0..] == hostname;
    }
  }

  /** A hostname that ends in the zone off a label boundary: the record loses the character before. */
  lemma RecordNameLosesCharacter()
    ensures GenerateRecordName("myapp.io", "app.io.") == Some("m")
    ensures GenerateResourceName("myapp.io", "app.io.") == "myapp.io"
  {
    TrimDot("app.io");
    assert "app.io." == "app.io" + ".";
    assert "myapp.io"[2..] == "app.io" && "myapp.io"[..1] == "m";
  }

  /** Two hostnames share their route objects exactly when they are equal or one is the other
      completed with the zone. */
  lemma SameResourceNameIff(a: string, b: string, bare: string)
    ensures GenerateResourceName(a, bare + ".") == GenerateResourceName(b, bare + ".")
       <==> || a == b
            || (!HasSuffix(b, bare) && a == b + "." + bare)
            || (!HasSuffix(a, bare) && b == a + "." + bare)
  {
    TrimDot(bare);
    CompletedEndsInZone(a, bare);
    CompletedEndsInZone(b, bare);
    if a + "." + bare == b + "." + bare {
      assert a == (a + "." + bare)[..|a|] && b == (b + "." + bare)[..|b|];
    }
  }

  /** Hostnames that share their route objects are recorded under one name. */
  lemma SharedNameSharesRecord(a: string, b: string, bare: string)
    requires GenerateResourceName(a, bare + ".") == GenerateResourceName(b, bare + ".")
    requires a != bare && b != bare
    ensures GenerateRecordName(a, bare + ".") == GenerateRecordName(b, bare + ".")
  {
    TrimDot(bare);
    SameResourceNameIff(a, b, bare);
    CompletedEndsInZone(a, bare);
    CompletedEndsInZone(b, bare);
    assert (a + "." + bare)[..|a|] == a && (b + "." + bare)[..|b|] == b;
  }

  /** Different objects have different TLS secrets. */
  lemma TLSSecretNameInjective(a: string, b: string)
    requires GenerateTLSSecretName(a) == GenerateTLSSecretName(b)
    ensures a == b
  {
    assert a == GenerateTLSSecretName(a)[..|a|] && b == GenerateTLSSecretName(b)[..|b|];
  }
}
