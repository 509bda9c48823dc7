/**
 `luxrays::SanitizeFileName`: turns an arbitrary name into one that is safe as a
 file name by keeping ASCII letters and digits and replacing every other byte by `_`.
 A `std::string` is a byte string; here each `char` stands for one byte, so a
 non-ASCII byte (signed or unsigned) is any `char` outside the ASCII ranges.
 */
module Config {

  /** The characters the C++ range tests keep: `A`-`Z`, `a`-`z`, `0`-`9`. */
  predicate IsAsciiAlnum(c: char)
  {
    ('A' <= c <= 'Z') || ('a' <= c <= 'z') || ('0' <= c <= '9')
  }

  /** The characters a sanitized name is made of. */
  predicate IsSafeChar(c: char)
  {
    IsAsciiAlnum(c) || c == '_'
  }

  /** A name every character of which is safe. */
  predicate IsSafeName(s: string)
  {
    forall i :: 0 <= i < |s| ==> IsSafeChar(s[i])
  }

  /** The sanitized name, defined one character at a time; `SanitizeFileNameLoop` is the C++ loop. */
  function SanitizeFileName(name: string): (r: string)
    ensures |r| == |name|
    ensures forall i :: 0 <= i < |name| && IsAsciiAlnum(name[i]) ==> r[i] == name[i]
    ensures forall i :: 0 <= i < |name| && !IsAsciiAlnum(name[i]) ==> r[i] == '_'
    ensures IsSafeName(r)
  {
    if |name| == 0 then ""
    else [if IsAsciiAlnum(name[0]) then name[0] else '_'] + SanitizeFileName(name[1..])
  }

  /**
   The C++ algorithm: a buffer of `_` as long as the name, in which every
   letter or digit of the name is copied to its own position.
   */
  method SanitizeFileNameLoop(name: string) returns (sanitized: string)
    ensures sanitized == SanitizeFileName(name)
  {
    sanitized := seq(|name|, _ => '_');
    var i := 0;
    while i < |sanitized|
      invariant |sanitized| == |name|
      invariant 0 <= i <= |name|
      invariant forall j :: 0 <= j < i ==> sanitized[j] == SanitizeFileName(name)[j]
      invariant forall j :: i <= j < |name| ==> sanitized[j] == '_'
    {
      if IsAsciiAlnum(name[i]) {
        sanitized := sanitized[i := name[i]];
      }
      i := i + 1;
    }
  }

  /** Sanitizing is the identity exactly on names made of letters, digits and `_`. */
  lemma SanitizeFixedPoints(name: string)
    ensures SanitizeFileName(name) == name <==> IsSafeName(name)
  {
  }

  /** Sanitizing twice is the same as sanitizing once. */
  lemma SanitizeIdempotent(name: string)
    ensures SanitizeFileName(SanitizeFileName(name)) == SanitizeFileName(name)
  {
  }

  /** A name of letters and digits only is returned unchanged, the empty name included. */
  lemma SanitizeKeepsAlnumNames(name: string)
    requires forall i :: 0 <= i < |name| ==> IsAsciiAlnum(name[i])
    ensures SanitizeFileName(name) == name
  {
  }

  /** Sanitizing works position by position, so it distributes over concatenation. */
  lemma SanitizeConcat(a: string, b: string)
    ensures SanitizeFileName(a + b) == SanitizeFileName(a) + SanitizeFileName(b)
  {
  }
}
