/** Hostnames under the platform's own domain: how one is derived for a store, and how one is recognised. */
module PlatformHostnames {

  predicate IsSpace(c: char) {
    c == ' ' || c == '\t' || c == '\n' || c == '\r'
  }

  function TrimStart(s: string): string {
    if s != "" && IsSpace(s[0]) then TrimStart(s[1..]) else s
  }

  function TrimEnd(s: string): string {
    if s != "" && IsSpace(s[|s| - 1]) then TrimEnd(s[..|s| - 1]) else s
  }

  function Trim(s: string): string {
    TrimEnd(TrimStart(s))
  }

  function LowerChar(c: char): char {
    if 'A' <= c <= 'Z' then (c as int - 'A' as int + 'a' as int) as char else c
  }

  function Lower(s: string): string {
    seq(|s|, i requires 0 <= i < |s| => LowerChar(s[i]))
  }

  /** .replace(/\.$/, '') */
  function WithoutFinalDot(s: string): string {
    if s != "" && s[|s| - 1] == '.' then s[..|s| - 1] else s
  }

  function Normal(hostname: string): string {
    WithoutFinalDot(Lower(Trim(hostname)))
  }

  predicate EndsWith(s: string, tail: string) {
    |tail| <= |s| && s[|s| - |tail|..] == tail
  }

  predicate IsUnderPlatformDomain(hostname: string, platformDomain: string) {
    Normal(hostname) == platformDomain || EndsWith(Normal(hostname), "." + platformDomain)
  }

  function DerivePlatformHostname(slug: string, platformDomain: string): string {
    Lower(Trim(slug)) + "." + platformDomain
  }

  /** What requirePlatformStorefrontDomain returns: non-empty, trimmed, lower case, no final dot. */
  predicate IsPlatformDomain(d: string) {
    d != "" && Lower(d) == d && !IsSpace(d[0]) && !IsSpace(d[|d| - 1]) && d[|d| - 1] != '.'
  }

  lemma {:induction false} TrimStartEnds(s: string)
    ensures var t := TrimStart(s); t == "" || !IsSpace(t[0])
  {
    if s != "" && IsSpace(s[0]) {
      TrimStartEnds(s[1..]);
    }
  }

  lemma {:induction false} TrimEndKeepsStart(s: string)
    requires s == "" || !IsSpace(s[0])
    ensures var t := TrimEnd(s); t == "" || !IsSpace(t[0])
  {
    if s != "" && IsSpace(s[|s| - 1]) {
      TrimEndKeepsStart(s[..|s| - 1]);
    }
  }

  lemma LowerSpace(c: char)
    ensures IsSpace(LowerChar(c)) <==> IsSpace(c)
    ensures LowerChar(LowerChar(c)) == LowerChar(c)
  {
  }

  lemma DerivedIsTrimmed(slug: string, d: string)
    requires IsPlatformDomain(d)
    ensures Trim(DerivePlatformHostname(slug, d)) == DerivePlatformHostname(slug, d)
  {
    var name := Trim(slug);
    var h := DerivePlatformHostname(slug, d);
    TrimStartEnds(slug);
    TrimEndKeepsStart(TrimStart(slug));
    hide Trim;
    assert h[|h| - 1] == d[|d| - 1];
    if name != "" {
      LowerSpace(name[0]);
      assert h[0] == LowerChar(name[0]);
    } else {
      assert Lower(name) == "" && h[0] == '.';
    }
    NothingToTrim(h);
  }

  lemma NothingToTrim(h: string)
    requires h != "" && !IsSpace(h[0]) && !IsSpace(h[|h| - 1])
    ensures Trim(h) == h
  {
  }

  lemma {:induction false} LowerConcat(a: string, b: string)
    ensures Lower(a + b) == Lower(a) + Lower(b)
  {
  }

  lemma LowerTwice(a: string)
    ensures Lower(Lower(a)) == Lower(a)
  {
    forall i | 0 <= i < |a|
      ensures LowerChar(LowerChar(a[i])) == LowerChar(a[i])
    {
      LowerSpace(a[i]);
    }
  }

  /** The writer satisfies the classifier: whatever the slug, the hostname derived for a store is
      recognised as the platform's. */
  lemma DerivedIsUnderPlatform(slug: string, d: string)
    requires IsPlatformDomain(d)
    ensures IsUnderPlatformDomain(DerivePlatformHostname(slug, d), d)
  {
    var name := Lower(Trim(slug));
    var h := DerivePlatformHostname(slug, d);
    DerivedIsTrimmed(slug, d);
    LowerTwice(Trim(slug));
    assert Lower(".") == ".";
    LowerConcat(name, ".");
    LowerConcat(name + ".", d);
    hide Lower, Trim;
    assert Lower(h) == h && h[|h| - 1] == d[|d| - 1];
    assert h == name + ("." + d);
    assert h[|h| - |"." + d|..] == "." + d;
  }
}
