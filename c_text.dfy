/** Character buffers as the C library sees them: `snprintf` writing into a
    fixed-size array (ISO/IEC 9899:2011, section 7.21.6.5) and reading the
    array back as a NUL-terminated string. */
module CText {

  const Nul: char := 0 as char

  /** A buffer of `size` characters, all zero, as `std::array<char, N> tmp{}`
      leaves it. */
  function ZeroedBuffer(size: nat): (b: seq<char>)
    ensures |b| == size
    ensures forall i :: 0 <= i < size ==> b[i] == Nul
  {
    seq(size, _ => Nul)
  }

  /** The effect of one `snprintf` call: the array contents afterwards and the
      value the call returns. */
  datatype Written = Written(buffer: seq<char>, count: nat)

  function Min(a: nat, b: nat): nat { if a < b then a else b }

  /** `snprintf(buffer, |buffer|, ...)` whose conversion produces `text`: at most
      |buffer| - 1 characters are stored, a NUL follows them, the rest of the
      array is untouched, and the return value is the full length of `text`
      whether or not it was cut. With size zero nothing is written. */
  function Snprintf(buffer: seq<char>, text: seq<char>): (r: Written)
    ensures |r.buffer| == |buffer|
    ensures r.count == |text|
    ensures |buffer| == 0 ==> r.buffer == buffer
    ensures |buffer| > 0 ==>
      var w := Min(|text|, |buffer| - 1);
      r.buffer[..w] == text[..w] && r.buffer[w] == Nul && r.buffer[w + 1..] == buffer[w + 1..]
  {
    if |buffer| == 0 then Written(buffer, |text|)
    else
      var w := Min(|text|, |buffer| - 1);
      Written(text[..w] + [Nul] + buffer[w + 1..], |text|)
  }

  /** The string a `const char*` to `buffer` denotes: the characters before the
      first NUL. */
  function ReadCString(buffer: seq<char>): (s: seq<char>)
    ensures |s| <= |buffer| && s == buffer[..|s|]
    ensures forall i :: 0 <= i < |s| ==> s[i] != Nul
    ensures |s| < |buffer| ==> buffer[|s|] == Nul
  {
    if buffer == [] || buffer[0] == Nul then []
    else [buffer[0]] + ReadCString(buffer[1..])
  }

  /** Reading back what `snprintf` stored gives the text cut to |buffer| - 1
      characters, and the call did not truncate (its return value is below the
      size) exactly when the whole text is read back. */
  lemma SnprintfReadBack(buffer: seq<char>, text: seq<char>)
    requires |buffer| > 0
    requires forall i :: 0 <= i < |text| ==> text[i] != Nul
    ensures ReadCString(Snprintf(buffer, text).buffer) == text[..Min(|text|, |buffer| - 1)]
    ensures Snprintf(buffer, text).count < |buffer| <==> ReadCString(Snprintf(buffer, text).buffer) == text
  {
  }
}
