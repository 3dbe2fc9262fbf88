/** The two string keys of the image matcher: `normalize` (lower-case, trim, drop one trailing
    extension) and `loose` (lower-case, keep only `[a-z0-9]`). The live preview declares the
    same two expressions again, character for character, so both sides share this key space. */
module Keys {
  import opened Common

  predicate IsLooseChar(c: char) { 'a' <= c <= 'z' || '0' <= c <= '9' }

  /** `loose(name)`. */
  function Loose(s: string): string
  {
    if s == [] then []
    else (if IsLooseChar(LowerChar(s[0])) then [LowerChar(s[0])] else []) + Loose(s[1..])
  }

  /** The loose key is no longer than the name and holds only `[a-z0-9]`. */
  lemma {:induction false} LooseSpec(s: string)
    ensures |Loose(s)| <= |s|
    ensures forall i :: 0 <= i < |Loose(s)| ==> IsLooseChar(Loose(s)[i])
  {
    if s != [] {
      LooseSpec(s[1..]);
    }
  }

  /** A name made only of letters and digits loses nothing but its case. */
  lemma {:induction false} LooseOfAlnum(s: string)
    requires forall i :: 0 <= i < |s| ==> IsLooseChar(LowerChar(s[i]))
    ensures Loose(s) == Lower(s)
  {
    if s != [] {
      LooseOfAlnum(s[1..]);
      assert Lower(s) == [LowerChar(s[0])] + Lower(s[1..]);
    }
  }

  /** A string already made of `[a-z0-9]` is its own loose key. */
  lemma {:induction false} LooseKeepsLooseStrings(s: string)
    requires forall i :: 0 <= i < |s| ==> IsLooseChar(s[i])
    ensures Loose(s) == s
  {
    if s != [] {
      LooseKeepsLooseStrings(s[1..]);
      assert s == [s[0]] + s[1..];
    }
  }

  lemma {:induction false} LooseIdempotent(s: string)
    ensures Loose(Loose(s)) == Loose(s)
  {
    LooseSpec(s);
    LooseKeepsLooseStrings(Loose(s));
  }

  /** The loose key is empty exactly when no character lower-cases into `[a-z0-9]`. */
  lemma {:induction false} LooseEmptyIff(s: string)
    ensures Loose(s) == "" <==> forall i :: 0 <= i < |s| ==> !IsLooseChar(LowerChar(s[i]))
  {
    if s != [] {
      LooseEmptyIff(s[1..]);
      assert forall i :: 1 <= i < |s| ==> s[i] == s[1..][i - 1];
    }
  }

  lemma {:induction false} LooseAppend(a: string, b: string)
    ensures Loose(a + b) == Loose(a) + Loose(b)
  {
    if a != [] {
      assert (a + b)[1..] == a[1..] + b;
      LooseAppend(a[1..], b);
    } else {
      assert a + b == b;
    }
  }

  predicate IsDotOrSlash(c: char) { c == '.' || c == '/' }

  /** `t` ends in `.suffix`, the dot at index `i`, the suffix non-empty and free of `.` and `/`:
      what `/\.[^/.]+$/` matches. */
  predicate ExtensionAt(t: string, i: int)
  {
    0 <= i < |t| - 1 && t[i] == '.' && forall k :: i < k < |t| ==> !IsDotOrSlash(t[k])
  }

  /** Index of the last `.` or `/` below `n`, or -1. */
  function LastDotOrSlash(t: string, n: nat): int
    requires n <= |t|
  {
    if n == 0 then -1 else if IsDotOrSlash(t[n - 1]) then n - 1 else LastDotOrSlash(t, n - 1)
  }

  lemma {:induction false} LastDotOrSlashSpec(t: string, n: nat)
    requires n <= |t|
    ensures var r := LastDotOrSlash(t, n);
      && -1 <= r < n
      && (r >= 0 ==> IsDotOrSlash(t[r]))
      && (forall k :: r < k < n ==> !IsDotOrSlash(t[k]))
  {
    if n > 0 && !IsDotOrSlash(t[n - 1]) {
      LastDotOrSlashSpec(t, n - 1);
    }
  }

  /** `replace(/\.[^/.]+$/, "")`: removes the trailing extension of `t` when it has one. */
  function StripExtension(t: string): string
  {
    var i := LastDotOrSlash(t, |t|);
    if 0 <= i < |t| - 1 && t[i] == '.' then t[..i] else t
  }

  /** Stripping changes `t` exactly when `t` ends in an extension, and then leaves the part
      before its dot. */
  lemma StripExtensionSpec(t: string)
    ensures var r := StripExtension(t);
      && (r == t <==> forall i :: 0 <= i < |t| ==> !ExtensionAt(t, i))
      && (r != t ==> ExtensionAt(t, |r|) && r == t[..|r|])
  {
    var i := LastDotOrSlash(t, |t|);
    LastDotOrSlashSpec(t, |t|);
    if 0 <= i < |t| - 1 && t[i] == '.' {
      assert ExtensionAt(t, i);
    } else {
      assert forall j :: 0 <= j < |t| && ExtensionAt(t, j) ==> j == i;
    }
  }

  /** `normalize(name)`: lower-case, trim, then remove exactly one trailing extension if there is one. */
  function Normalize(s: string): string
  {
    StripExtension(Trim(Lower(s)))
  }

  /** The normalized key is the lower-cased, trimmed name, shortened by its trailing extension
      exactly when it has one. */
  lemma NormalizeSpec(s: string)
    ensures var t := Trim(Lower(s)); var r := Normalize(s);
      && (r == t <==> forall i :: 0 <= i < |t| ==> !ExtensionAt(t, i))
      && (r != t ==> ExtensionAt(t, |r|) && r == t[..|r|])
  {
    StripExtensionSpec(Trim(Lower(s)));
  }

  /** At most one position can start the trailing extension. */
  lemma ExtensionUnique(t: string, i: int, j: int)
    requires ExtensionAt(t, i) && ExtensionAt(t, j)
    ensures i == j
  {
  }

  /** When `t` has an extension starting at `i`, stripping leaves exactly `t[..i]`. */
  lemma StripExtensionAt(t: string, i: int)
    requires ExtensionAt(t, i)
    ensures StripExtension(t) == t[..i]
  {
    var r := StripExtension(t);
    StripExtensionSpec(t);
    assert r != t;
    ExtensionUnique(t, |r|, i);
  }

  /** A string with no upper-case letter, no surrounding white space and an extension at `i`
      normalizes to its part before `i`. */
  lemma NormalizePlain(s: string, i: int)
    requires forall k :: 0 <= k < |s| ==> !('A' <= s[k] <= 'Z')
    requires s != [] && !IsSpace(s[0]) && !IsSpace(s[|s| - 1])
    requires ExtensionAt(s, i)
    ensures Normalize(s) == s[..i]
  {
    assert Lower(s) == s;
    TrimUnchanged(s);
    StripExtensionAt(s, i);
  }

  /** Lower-casing first does not change the normalized key. */
  lemma NormalizeIgnoresCase(s: string)
    ensures Normalize(Lower(s)) == Normalize(s)
  {
    assert Lower(Lower(s)) == Lower(s);
  }

  lemma NormalizeTarGz()
    ensures Normalize("a.tar.gz") == "a.tar"
  {
    NormalizePlain("a.tar.gz", 5);
    assert "a.tar.gz"[..5] == "a.tar";
  }

  lemma NormalizeTar()
    ensures Normalize("a.tar") == "a"
  {
    NormalizePlain("a.tar", 1);
    assert "a.tar"[..1] == "a";
  }

  /** `normalize` is not idempotent: a second call strips a second extension. */
  lemma NormalizeNotIdempotent()
    ensures Normalize(Normalize("a.tar.gz")) != Normalize("a.tar.gz")
  {
    NormalizeTarGz();
    NormalizeTar();
  }

  lemma LowerInvoice()
    ensures Lower("Invoice_01.PNG") == "invoice_01.png"
  {
  }

  /** The image `Invoice_01.PNG` gets the normalized key `invoice_01`. */
  lemma NormalizeExample()
    ensures Normalize("Invoice_01.PNG") == "invoice_01"
  {
    LowerInvoice();
    NormalizeIgnoresCase("Invoice_01.PNG");
    NormalizePlain("invoice_01.png", 10);
    assert "invoice_01.png"[..10] == "invoice_01";
  }
}
