/** The few Python built-ins the deployment helper leans on, as total
    functions over `string` (a `seq<char>`). */
module PyBuiltins {

  /** `str.upper` restricted to ASCII: only 'a'..'z' change, so lengths are kept. */
  function UpperChar(c: char): char {
    if 'a' <= c <= 'z' then (c as int - 32) as char else c
  }

  function Upper(s: string): string {
    seq(|s|, i requires 0 <= i < |s| => UpperChar(s[i]))
  }

  /** `s.replace(from, to)` for single characters. */
  function Replace(s: string, from: char, to: char): string {
    seq(|s|, i requires 0 <= i < |s| => if s[i] == from then to else s[i])
  }

  /** `s.startswith(p)` */
  predicate StartsWith(s: string, p: string) {
    |p| <= |s| && s[..|p|] == p
  }

  /** `s[n:]` for a non-negative `n`: empty once `n` passes the end. */
  function SliceFrom(s: string, n: nat): (r: string)
    ensures |r| == if n <= |s| then |s| - n else 0
  {
    if n <= |s| then s[n..] else ""
  }

  /** `s[1:-1]`: drops one character at each end; shorter strings give "". */
  function StripOuter(s: string): (r: string)
    ensures |s| >= 2 ==> |r| == |s| - 2
    ensures |s| < 2 ==> r == ""
  {
    if |s| >= 2 then s[1..|s| - 1] else ""
  }

  /** The entity tag S3 reports is the digest wrapped in double quotes;
      stripping the outer characters gives the digest back. */
  lemma StripOuterOfQuoted(digest: string)
    ensures StripOuter(['"'] + digest + ['"']) == digest
  {
    var quoted := ['"'] + digest + ['"'];
    assert quoted[1..|quoted| - 1] == digest;
  }

  /** `posixpath.join(a, b)` for two components. */
  function PathJoin(a: string, b: string): (r: string)
    // a relative second component is appended to the first, with exactly
    // one '/' between them unless the first is empty
    ensures !(|b| > 0 && b[0] == '/') ==>
      && |r| == |a| + |b| + (if a == "" || a[|a| - 1] == '/' then 0 else 1)
      && r[..|a|] == a
      && r[|r| - |b|..] == b
      && (a == "" ==> r == b)
      && (a != "" ==> r[|r| - |b| - 1] == '/')
  {
    if |b| > 0 && b[0] == '/' then b
    else if a == "" || a[|a| - 1] == '/' then a + b
    else a + "/" + b
  }

  /** `posixpath.basename(p)`: what follows the last '/'. */
  function Basename(p: string): (r: string)
    ensures '/' !in r
  {
    if p == [] then ""
    else if p[|p| - 1] == '/' then ""
    else Basename(p[..|p| - 1]) + [p[|p| - 1]]
  }

  /** A name without '/' is a fixed point of `Basename`. */
  lemma {:induction false} BasenameOfPlainName(dir: string, name: string)
    requires dir == "" || dir[|dir| - 1] == '/'
    requires '/' !in name
    ensures Basename(dir + name) == name
    decreases |name|
  {
    if name == [] {
      assert dir + name == dir;
    } else {
      var full := dir + name;
      var init := name[..|name| - 1];
      var c := name[|name| - 1];
      assert name == init + [c];
      assert '/' !in init && c != '/';
      assert full[..|full| - 1] == dir + init;
      assert full[|full| - 1] == c;
      BasenameOfPlainName(dir, init);
      assert Basename(full) == Basename(dir + init) + [c];
    }
  }

  /** Joining a directory with a plain file name and taking the base name
      gives the file name back, whatever the directory. */
  lemma BasenameOfJoin(dir: string, name: string)
    requires '/' !in name
    ensures Basename(PathJoin(dir, name)) == name
  {
    if dir == "" || dir[|dir| - 1] == '/' {
      BasenameOfPlainName(dir, name);
    } else {
      var withSlash := dir + "/";
      assert dir + "/" + name == withSlash + name;
      BasenameOfPlainName(withSlash, name);
    }
  }

  predicate IsDigit(c: char) {
    '0' <= c <= '9'
  }

  function DigitChar(d: nat): (c: char)
    requires d < 10
    ensures IsDigit(c) && c as int - '0' as int == d
  {
    ('0' as int + d) as char
  }

  /** `str(n)` for a non-negative integer: decimal digits, no leading zero. */
  function DecimalString(n: nat): string
    decreases n
  {
    if n < 10 then [DigitChar(n)] else DecimalString(n / 10) + [DigitChar(n % 10)]
  }

  predicate AllDigits(s: string) {
    forall i :: 0 <= i < |s| ==> IsDigit(s[i])
  }

  /** `int(s)` for a string of decimal digits. */
  function ParseDecimal(s: string): nat
    requires AllDigits(s)
  {
    if s == [] then 0
    else ParseDecimal(s[..|s| - 1]) * 10 + (s[|s| - 1] as int - '0' as int)
  }

  /** `int(str(n)) == n`, and `str(n)` is never empty and holds digits only. */
  lemma {:induction false} DecimalRoundTrip(n: nat)
    ensures |DecimalString(n)| > 0 && AllDigits(DecimalString(n))
    ensures ParseDecimal(DecimalString(n)) == n
    decreases n
  {
    var s := DecimalString(n);
    if n >= 10 {
      DecimalRoundTrip(n / 10);
      var init := DecimalString(n / 10);
      assert s == init + [DigitChar(n % 10)];
      assert s[..|s| - 1] == init;
    }
  }
}
