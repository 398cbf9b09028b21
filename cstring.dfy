/** The C string calls the program builds its text buffers with: `memset`
    to zero, `strcpy` and `strcat`, on fixed-size `char` arrays. */
module CString {
  import opened Protocol

  /** `memset(buffer, 0, sizeof(buffer))`. */
  method Clear(buffer: array<char>)
    modifies buffer
    ensures forall k :: 0 <= k < buffer.Length ==> buffer[k] == '\0'
  {
    forall k | 0 <= k < buffer.Length {
      buffer[k] := '\0';
    }
  }

  /** `strcpy(buffer, text)`: the text and its terminator replace the start of
      the buffer; the rest is untouched. */
  method Strcpy(buffer: array<char>, text: string)
    requires |text| < buffer.Length && '\0' !in text
    modifies buffer
    ensures buffer[..|text| + 1] == text + ['\0']
    ensures buffer[|text| + 1..] == old(buffer[|text| + 1..])
  {
    forall k | 0 <= k < |text| {
      buffer[k] := text[k];
    }
    buffer[|text|] := '\0';
  }

  /** `strcat(buffer, piece)` on a buffer holding a string of `len` characters
      followed by zeros: the piece goes at the first terminator. Returns the
      new length. */
  method Strcat(buffer: array<char>, len: nat, piece: string) returns (len': nat)
    requires len + |piece| < buffer.Length && '\0' !in piece
    requires forall k :: 0 <= k < len ==> buffer[k] != '\0'
    requires forall k :: len <= k < buffer.Length ==> buffer[k] == '\0'
    modifies buffer
    ensures len' == len + |piece|
    ensures buffer[..len'] == old(buffer[..len]) + piece
    ensures forall k :: 0 <= k < len' ==> buffer[k] != '\0'
    ensures forall k :: len' <= k < buffer.Length ==> buffer[k] == '\0'
  {
    forall k | 0 <= k < |piece| {
      buffer[len + k] := piece[k];
    }
    len' := len + |piece|;
  }

  /** `strchr(buffer, c)` on a string of `len` characters ending in its
      terminator: the index of the first c, if any. */
  method Strchr(buffer: array<char>, len: nat, c: char) returns (p: Option<nat>)
    requires len < buffer.Length && buffer[len] == '\0' && c != '\0'
    requires forall k :: 0 <= k < len ==> buffer[k] != '\0'
    ensures p.None? ==> c !in buffer[..len]
    ensures p.Some? ==> p.value < len && buffer[p.value] == c && c !in buffer[..p.value]
  {
    var i := 0;
    while buffer[i] != '\0' && buffer[i] != c
      invariant 0 <= i <= len
      invariant c !in buffer[..i]
      decreases len - i
    {
      i := i + 1;
    }
    if buffer[i] == c {
      p := Some(i);
    } else {
      p := None;
    }
  }
}
