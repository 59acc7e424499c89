/** Version precedence as section 11 of SemVer 2.0.0 defines it, and that it is a total preorder. */
module SemVer {

  /** A prerelease identifier: digits only are a number, anything else is compared as text. */
  datatype Identifier = Numeric(n: nat) | Text(s: string)

  /** The build part is kept but has no precedence. */
  datatype Version = Version(major: nat, minor: nat, patch: nat, pre: seq<Identifier>, build: string)

  /** The sign of a comparison, as Go's Compare functions return it. */
  type Sign = s: int | -1 <= s <= 1

  function CompareInt(a: int, b: int): Sign {
    if a < b then -1 else if a > b then 1 else 0
  }

  function CompareText(a: string, b: string): Sign {
    if a == "" && b == "" then 0
    else if a == "" then -1
    else if b == "" then 1
    else if a[0] != b[0] then CompareInt(a[0] as int, b[0] as int)
    else CompareText(a[1..], b[1..])
  }

  function CompareIdentifier(a: Identifier, b: Identifier): Sign {
    match (a, b)
    case (Numeric(m), Numeric(n)) => CompareInt(m, n)
    case (Numeric(_), Text(_)) => -1
    case (Text(_), Numeric(_)) => 1
    case (Text(s), Text(t)) => CompareText(s, t)
  }

  /** Field by field; when one list runs out the longer one is greater. */
  function CompareFields(a: seq<Identifier>, b: seq<Identifier>): Sign {
    if a == [] && b == [] then 0
    else if a == [] then -1
    else if b == [] then 1
    else
      var c := CompareIdentifier(a[0], b[0]);
      if c != 0 then c else CompareFields(a[1..], b[1..])
  }

  /** A version without prerelease is greater than one with. */
  function ComparePrerelease(a: seq<Identifier>, b: seq<Identifier>): Sign {
    if a == [] && b == [] then 0
    else if a == [] then 1
    else if b == [] then -1
    else CompareFields(a, b)
  }

  function Compare(a: Version, b: Version): Sign {
    if a.major != b.major then CompareInt(a.major, b.major)
    else if a.minor != b.minor then CompareInt(a.minor, b.minor)
    else if a.patch != b.patch then CompareInt(a.patch, b.patch)
    else ComparePrerelease(a.pre, b.pre)
  }

  /** Three comparisons that fit one total preorder: ab and bc not above force ac, strictly if one is. */
  predicate Chains(ab: Sign, bc: Sign, ac: Sign) {
    && (ab <= 0 && bc <= 0 ==> ac <= 0)
    && (ab <= 0 && bc <= 0 && (ab < 0 || bc < 0) ==> ac < 0)
  }

  lemma {:induction false} TextFlips(a: string, b: string)
    ensures CompareText(b, a) == -CompareText(a, b)
    decreases |a|
  {
    if a != "" && b != "" { TextFlips(a[1..], b[1..]); }
  }

  lemma {:induction false} TextChains(a: string, b: string, c: string)
    ensures Chains(CompareText(a, b), CompareText(b, c), CompareText(a, c))
    decreases |a|
  {
    if a != "" && b != "" && c != "" { TextChains(a[1..], b[1..], c[1..]); }
  }

  lemma {:induction false} IdentifierFlips(a: Identifier, b: Identifier)
    ensures CompareIdentifier(b, a) == -CompareIdentifier(a, b)
  {
    if a.Text? && b.Text? { TextFlips(a.s, b.s); }
  }

  lemma {:induction false} IdentifierChains(a: Identifier, b: Identifier, c: Identifier)
    ensures Chains(CompareIdentifier(a, b), CompareIdentifier(b, c), CompareIdentifier(a, c))
  {
    if a.Text? && b.Text? && c.Text? { TextChains(a.s, b.s, c.s); }
  }

  lemma {:induction false} FieldsFlip(a: seq<Identifier>, b: seq<Identifier>)
    ensures CompareFields(b, a) == -CompareFields(a, b)
    decreases |a|
  {
    if a != [] && b != [] {
      IdentifierFlips(a[0], b[0]);
      FieldsFlip(a[1..], b[1..]);
    }
  }

  lemma {:induction false} FieldsChain(a: seq<Identifier>, b: seq<Identifier>, c: seq<Identifier>)
    ensures Chains(CompareFields(a, b), CompareFields(b, c), CompareFields(a, c))
    decreases |a|
  {
    if a != [] && b != [] && c != [] {
      IdentifierChains(a[0], b[0], c[0]);
      IdentifierFlips(a[0], b[0]);
      IdentifierFlips(b[0], c[0]);
      IdentifierFlips(a[0], c[0]);
      IdentifierChains(b[0], a[0], c[0]);
      IdentifierChains(a[0], c[0], b[0]);
      FieldsChain(a[1..], b[1..], c[1..]);
    }
  }

  /** Swapping the arguments turns the sign around, so any two versions are comparable. */
  lemma {:induction false} CompareFlips(a: Version, b: Version)
    ensures Compare(b, a) == -Compare(a, b)
  {
    FieldsFlip(a.pre, b.pre);
  }

  /** Precedence is transitive, strictly so when one of the steps is strict. */
  lemma {:induction false} CompareChains(a: Version, b: Version, c: Version)
    ensures Chains(Compare(a, b), Compare(b, c), Compare(a, c))
  {
    FieldsChain(a.pre, b.pre, c.pre);
  }

  // ---------------------------------------------------------------- what precedence means

  /** The first k characters agree, and then the first text ends or has the lesser character. */
  ghost predicate TextDiffers(a: string, b: string, k: nat) {
    k <= |a| && k < |b| && a[..k] == b[..k] && (k == |a| || a[k] < b[k])
  }

  ghost predicate TextPrecedes(a: string, b: string) {
    exists k: nat :: TextDiffers(a, b, k)
  }

  /** Section 11.4: numbers numerically, text by its characters, numbers before text. */
  ghost predicate IdentifierPrecedes(a: Identifier, b: Identifier) {
    || (a.Numeric? && b.Numeric? && a.n < b.n)
    || (a.Numeric? && b.Text?)
    || (a.Text? && b.Text? && TextPrecedes(a.s, b.s))
  }

  ghost predicate FieldsDiffer(a: seq<Identifier>, b: seq<Identifier>, k: nat) {
    && k <= |a| && k < |b| && a[..k] == b[..k]
    && (k == |a| || IdentifierPrecedes(a[k], b[k]))
  }

  ghost predicate FieldsPrecede(a: seq<Identifier>, b: seq<Identifier>) {
    exists k: nat :: FieldsDiffer(a, b, k)
  }

  predicate SameCore(a: Version, b: Version) {
    a.major == b.major && a.minor == b.minor && a.patch == b.patch
  }

  /** Section 11.2 and 11.3: by major, minor and patch; then a prerelease before its release. */
  ghost predicate Precedes(a: Version, b: Version) {
    || a.major < b.major
    || (a.major == b.major && a.minor < b.minor)
    || (a.major == b.major && a.minor == b.minor && a.patch < b.patch)
    || (SameCore(a, b) && a.pre != [] && b.pre == [])
    || (SameCore(a, b) && a.pre != [] && b.pre != [] && FieldsPrecede(a.pre, b.pre))
  }

  lemma {:induction false} SameFirst<T>(a: seq<T>, b: seq<T>, k: nat)
    requires 0 < k <= |a| && k <= |b| && a[..k] == b[..k]
    ensures a[0] == b[0]
  {
    assert a[..k][0] == a[0] && b[..k][0] == b[0];
  }

  lemma {:induction false} TextCons(a: string, b: string, k: nat)
    requires a != "" && b != "" && a[0] == b[0]
    ensures TextDiffers(a[1..], b[1..], k) <==> TextDiffers(a, b, k + 1)
  {
    if k + 1 <= |a| && k + 1 <= |b| {
      assert a[..k + 1] == [a[0]] + a[1..][..k] && b[..k + 1] == [b[0]] + b[1..][..k];
      assert a[1..][..k] == a[..k + 1][1..] && b[1..][..k] == b[..k + 1][1..];
    }
  }

  lemma {:induction false} TextIs(a: string, b: string)
    ensures CompareText(a, b) < 0 <==> TextPrecedes(a, b)
    ensures CompareText(a, b) == 0 <==> a == b
    decreases |a|
  {
    if a == "" && b != "" {
      assert TextDiffers(a, b, 0);
    } else if a != "" && b != "" && a[0] != b[0] {
      if a[0] < b[0] { assert TextDiffers(a, b, 0); }
      forall k: nat | TextDiffers(a, b, k) ensures k == 0 {
        if k > 0 { SameFirst(a, b, k); }
      }
    } else if a != "" && b != "" {
      TextIs(a[1..], b[1..]);
      assert a == [a[0]] + a[1..] && b == [b[0]] + b[1..];
      if TextPrecedes(a[1..], b[1..]) {
        var k: nat :| TextDiffers(a[1..], b[1..], k);
        TextCons(a, b, k);
      }
      if TextPrecedes(a, b) {
        var k: nat :| TextDiffers(a, b, k);
        assert k > 0;
        TextCons(a, b, k - 1);
      }
    }
  }

  lemma {:induction false} IdentifierIs(a: Identifier, b: Identifier)
    ensures CompareIdentifier(a, b) < 0 <==> IdentifierPrecedes(a, b)
    ensures CompareIdentifier(a, b) == 0 <==> a == b
  {
    if a.Text? && b.Text? { TextIs(a.s, b.s); }
  }

  lemma {:induction false} FieldsCons(a: seq<Identifier>, b: seq<Identifier>, k: nat)
    requires a != [] && b != [] && a[0] == b[0]
    ensures FieldsDiffer(a[1..], b[1..], k) <==> FieldsDiffer(a, b, k + 1)
  {
    if k + 1 <= |a| && k + 1 <= |b| {
      assert a[..k + 1] == [a[0]] + a[1..][..k] && b[..k + 1] == [b[0]] + b[1..][..k];
      assert a[1..][..k] == a[..k + 1][1..] && b[1..][..k] == b[..k + 1][1..];
    }
  }

  lemma {:induction false} FieldsAre(a: seq<Identifier>, b: seq<Identifier>)
    ensures CompareFields(a, b) < 0 <==> FieldsPrecede(a, b)
    ensures CompareFields(a, b) == 0 <==> a == b
    decreases |a|
  {
    if a == [] && b != [] {
      assert FieldsDiffer(a, b, 0);
    } else if a != [] && b != [] && a[0] != b[0] {
      IdentifierIs(a[0], b[0]);
      if IdentifierPrecedes(a[0], b[0]) { assert FieldsDiffer(a, b, 0); }
      forall k: nat | FieldsDiffer(a, b, k) ensures k == 0 {
        if k > 0 { SameFirst(a, b, k); }
      }
    } else if a != [] && b != [] {
      IdentifierIs(a[0], b[0]);
      SameFirstField(a, b);
    }
  }

  lemma {:induction false} SameFirstField(a: seq<Identifier>, b: seq<Identifier>)
    requires a != [] && b != [] && a[0] == b[0]
    ensures CompareFields(a, b) < 0 <==> FieldsPrecede(a, b)
    ensures CompareFields(a, b) == 0 <==> a == b
    decreases |a|, 0
  {
    FieldsAre(a[1..], b[1..]);
    IdentifierIs(a[0], a[0]);
    assert a == [a[0]] + a[1..] && b == [b[0]] + b[1..];
    if FieldsPrecede(a[1..], b[1..]) {
      var k: nat :| FieldsDiffer(a[1..], b[1..], k);
      FieldsCons(a, b, k);
    }
    if FieldsPrecede(a, b) {
      var k: nat :| FieldsDiffer(a, b, k);
      if k == 0 {
        IdentifierIs(a[0], b[0]);
      } else {
        FieldsCons(a, b, k - 1);
      }
    }
  }

  /** The comparison is precedence as section 11 words it; versions compare equal when they differ in the build at most. */
  lemma {:induction false} CompareExactly(a: Version, b: Version)
    ensures Compare(a, b) == -1 <==> Precedes(a, b)
    ensures Compare(a, b) == 1 <==> Precedes(b, a)
    ensures Compare(a, b) == 0 <==> SameCore(a, b) && a.pre == b.pre
  {
    FieldsAre(a.pre, b.pre);
    FieldsAre(b.pre, a.pre);
    FieldsFlip(a.pre, b.pre);
  }
}
