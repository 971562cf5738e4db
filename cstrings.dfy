/** C strings as the program sees them: a region of memory read up to its first
    NUL byte, and `strncpy` as section 7.24.2.4 of ISO/IEC 9899:2011 defines it.
    Each `char` stands for one byte; comparisons are on the unsigned value. */
module CStrings {

  /** Text that a C string can hold: no NUL inside it. */
  type Text = s: string | '\0' !in s

  /** strlen: the index of the first NUL in `mem`, or |mem| when there is none. */
  function CStrLen(mem: seq<char>): (n: nat)
    ensures n <= |mem|
    ensures forall i :: 0 <= i < n ==> mem[i] != '\0'
    ensures n < |mem| ==> mem[n] == '\0'
  {
    if mem == [] || mem[0] == '\0' then 0 else 1 + CStrLen(mem[1..])
  }

  /** The string a `char *` pointing at `mem` denotes. */
  function CStr(mem: seq<char>): (s: Text)
    ensures s <= mem
    ensures |s| < |mem| ==> mem[|s|] == '\0'
  {
    mem[..CStrLen(mem)]
  }

  /** A NUL at index k with none before it fixes the string to the first k bytes. */
  lemma CStrAt(mem: seq<char>, k: nat)
    requires k < |mem| && mem[k] == '\0'
    requires forall i :: 0 <= i < k ==> mem[i] != '\0'
    ensures CStr(mem) == mem[..k]
  {
  }

  /** A string stored with its terminator reads back as itself, whatever follows. */
  lemma {:induction false} CStrOfStored(s: Text, rest: seq<char>)
    ensures CStr(s + ['\0'] + rest) == s
  {
    var mem := s + ['\0'] + rest;
    assert mem[|s|] == '\0';
    forall i | 0 <= i < |s| ensures mem[i] != '\0' {
      assert mem[i] == s[i];
    }
    CStrAt(mem, |s|);
    assert mem[..|s|] == s;
  }

  /** Memory holding `body`, a NUL and anything after it reads as the string
      in `body`, which is at most |body| characters long. */
  lemma CStrOfTerminated(body: seq<char>, rest: seq<char>)
    ensures CStrLen(body + ['\0'] + rest) <= |body|
    ensures CStr(body + ['\0'] + rest) == CStr(body)
  {
    var mem := body + ['\0'] + rest;
    var k := CStrLen(body);
    assert mem[..|body|] == body;
    assert mem[k] == '\0';
    CStrAt(mem, k);
  }

  /** The first min(|s|, n) characters of s. */
  function Truncate(s: string, n: nat): (r: string)
    ensures r <= s
    ensures |r| == if |s| <= n then |s| else n
  {
    if |s| <= n then s else s[..n]
  }

  /** strncpy may read `src` for n bytes: it stops at the first NUL, which must
      then lie inside `src`, or it reads n bytes that all lie inside it. */
  predicate Readable(src: seq<char>, n: nat)
  {
    CStrLen(src) < |src| || n <= |src|
  }

  /** k NUL bytes. */
  function Nuls(k: nat): seq<char>
  {
    seq(k, _ => '\0')
  }

  /** strncpy(dst, src, n) on a buffer that held `before`: the bytes of `src`
      before its first NUL, at most n of them, then NUL padding up to n bytes;
      the bytes from n on are untouched. */
  function StrNCpy(before: seq<char>, src: seq<char>, n: nat): (after: seq<char>)
    requires n <= |before| && Readable(src, n)
    ensures |after| == |before|
  {
    var copied := Truncate(CStr(src), n);
    copied + Nuls(n - |copied|) + before[n..]
  }

  /** The same bytes, one at a time, as the standard describes them: below n,
      the source byte up to its first NUL and a NUL after it; from n on, the
      old byte. */
  lemma StrNCpyBytes(before: seq<char>, src: seq<char>, n: nat)
    requires n <= |before| && Readable(src, n)
    ensures forall i :: 0 <= i < |before| ==>
      StrNCpy(before, src, n)[i] == if n <= i then before[i] else if i < CStrLen(src) then src[i] else '\0'
  {
  }

  /** strncpy of at most n bytes into a buffer whose byte n is NUL (a zeroed
      buffer of more than n bytes) leaves a C string: the source string cut to
      n characters, terminated at index n at the latest. */
  lemma StrNCpyTruncates(before: seq<char>, src: seq<char>, n: nat)
    requires n < |before| && before[n] == '\0' && Readable(src, n)
    ensures StrNCpy(before, src, n)[n] == '\0'
    ensures CStr(StrNCpy(before, src, n)) == Truncate(CStr(src), n)
  {
    var after := StrNCpy(before, src, n);
    var copied := Truncate(CStr(src), n);
    var k := |copied|;
    assert after[n] == before[n];
    assert after[k] == '\0';
    forall i | 0 <= i < k ensures after[i] != '\0' {
      assert after[i] == copied[i];
    }
    CStrAt(after, k);
    assert after[..k] == copied;
  }

  /** strncpy of a string stored with its terminator, bounded by n, into a
      buffer whose byte n is NUL: the buffer stays terminated at n and reads
      as the string cut to n characters. */
  function StrNCpyString(before: seq<char>, s: Text, n: nat): (after: seq<char>)
    requires n < |before| && before[n] == '\0'
    ensures |after| == |before| && after[n] == '\0'
    ensures CStr(after) == Truncate(s, n)
  {
    CStrOfStored(s, []);
    assert s + ['\0'] + [] == s + ['\0'];
    StrNCpyTruncates(before, s + ['\0'], n);
    StrNCpy(before, s + ['\0'], n)
  }
}
