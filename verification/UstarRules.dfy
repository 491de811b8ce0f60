/** The bytes of an archive: every field of a header where POSIX.1 puts it, and where the contents lie. */
module UstarRules {
  import opened Sequences
  import opened Wrappers
  import opened Ustar

  /** Digits of an octal number, and what ends the field. */
  ghost predicate HoldsNumber(h: seq<Byte>, from: nat, digits: nat, n: nat)
    requires from + digits <= |h|
  {
    && (forall k :: from <= k < from + digits ==> 48 <= h[k] <= 55)
    && (forall b :: b in h[from..from + digits] ==> IsOctal(b))
    && Value(h[from..from + digits]) == n
  }

  lemma NumberField(h: seq<Byte>, from: nat, digits: nat, n: nat, ending: string)
    requires digits >= 1 && n < Pow8(digits) && from + digits + |ending| <= |h|
    requires h[from..from + digits + |ending|] == Encoded(OctalField(n, digits) + ending)
    ensures HoldsNumber(h, from, digits, n)
    ensures forall k :: 0 <= k < |ending| ==> h[from + digits + k] == ending[k] as int % 256
  {
    var field, text := h[from..from + digits + |ending|], OctalField(n, digits);
    FieldHasValue(n, digits);
    assert h[from..from + digits] == field[..digits] == Encoded(text);
    forall k | from <= k < from + digits ensures 48 <= h[k] <= 55 {
      assert h[k] == Encoded(text)[k - from] && Encoded(text)[k - from] in Encoded(text);
    }
    forall k | 0 <= k < |ending| ensures h[from + digits + k] == ending[k] as int % 256 {
      assert h[from + digits + k] == field[digits + k];
    }
  }

  lemma TwoToThe33()
    ensures Pow8(11) == 8589934592
  {
    assert Pow8(4) == 4096 && Pow8(8) == 8 * (8 * (8 * (8 * Pow8(4))));
    assert Pow8(11) == 8 * (8 * (8 * Pow8(8)));
  }

  /** The name of an entry: its first 99 characters in eight bits each, then zeros. */
  lemma NameBytes(name: string, size: nat, mtime: nat, k: nat)
    requires size < 8589934592 && mtime < 8589934592 && k < 100
    ensures Header(name, size, mtime)[k] == if k < |name| && k < 99 then name[k] as int % 256 else 0
  {
    TwoToThe33();
    HeaderFields(name, size, mtime);
    var h := Header(name, size, mtime);
    assert h[k] == h[..100][k];
  }

  /** Mode 0644, owner and group 0. */
  lemma OwnerBytes(name: string, size: nat, mtime: nat)
    requires size < 8589934592 && mtime < 8589934592
    ensures var h := Header(name, size, mtime);
      && h[100..108] == [48, 48, 48, 48, 54, 52, 52, 0]
      && h[108..116] == [48, 48, 48, 48, 48, 48, 48, 0]
      && h[116..124] == [48, 48, 48, 48, 48, 48, 48, 0]
  {
    TwoToThe33();
    var i, u, h := Identity(name), Unsummed(name, size, mtime), Header(name, size, mtime);
    IdentityFields(name);
    UnsummedFields(name, size, mtime);
    SummedKeeps(name, size, mtime);
    RangeOfPrefix(u, i, 124, 100, 108);
    RangeOfPrefix(u, i, 124, 108, 116);
    RangeOfPrefix(u, i, 124, 116, 124);
    RangeOfPrefix(h, u, 148, 100, 108);
    RangeOfPrefix(h, u, 148, 108, 116);
    RangeOfPrefix(h, u, 148, 116, 124);
  }

  /** The size and the time, in eleven octal digits and a zero each. */
  lemma NumberBytes(name: string, size: nat, mtime: nat)
    requires size < 8589934592 && mtime < 8589934592
    ensures var h := Header(name, size, mtime);
      && HoldsNumber(h, 124, 11, size) && h[135] == 0
      && HoldsNumber(h, 136, 11, mtime) && h[147] == 0
  {
    TwoToThe33();
    var u, h := Unsummed(name, size, mtime), Header(name, size, mtime);
    UnsummedFields(name, size, mtime);
    SummedKeeps(name, size, mtime);
    RangeOfPrefix(h, u, 148, 124, 136);
    RangeOfPrefix(h, u, 148, 136, 148);
    NumberField(h, 124, 11, size, NUL);
    NumberField(h, 136, 11, mtime, NUL);
  }

  /** A header whose checksum field is taken as eight spaces. */
  function WithSpaces(h: seq<Byte>): seq<Byte>
    requires |h| == 512
  {
    h[..148] + [32, 32, 32, 32, 32, 32, 32, 32] + h[156..]
  }

  /** The checksum: six digits, a zero and a space. */
  lemma ChecksumBytes(name: string, size: nat, mtime: nat)
    requires size < 8589934592 && mtime < 8589934592
    ensures var h := Header(name, size, mtime);
      HoldsNumber(h, 148, 6, Sum(WithSpaces(h))) && h[154] == 0 && h[155] == 32
  {
    TwoToThe33();
    var u, h := Unsummed(name, size, mtime), Header(name, size, mtime);
    SummedKeeps(name, size, mtime);
    SumIsOverSpaces(name, size, mtime);
    assert WithSpaces(h) == Put(h, 148, Encoded("        "));
    assert OctalField(Sum(u), 6) + NUL + " " == OctalField(Sum(u), 6) + (NUL + " ");
    NumberField(h, 148, 6, Sum(u), NUL + " ");
  }

  /** What a checksum adds up. */
  lemma {:induction false} SumAdds(a: seq<Byte>, b: seq<Byte>, byte: Byte)
    ensures Sum([]) == 0 && Sum([byte]) == byte
    ensures Sum(a + b) == Sum(a) + Sum(b)
    decreases |b|
  {
    if b == [] {
      assert a + b == a;
    } else {
      assert (a + b)[..|a + b| - 1] == a + b[..|b| - 1];
      SumAdds(a, b[..|b| - 1], byte);
    }
  }

  /** A regular file, the magic "ustar" and version "00". */
  lemma MagicBytes(name: string, size: nat, mtime: nat)
    requires size < 8589934592 && mtime < 8589934592
    ensures var h := Header(name, size, mtime);
      h[156] == 48 && h[257..263] == [117, 115, 116, 97, 114, 0] && h[263..265] == [48, 48]
  {
    TwoToThe33();
    UnsummedFields(name, size, mtime);
    SummedKeeps(name, size, mtime);
  }

  /** Every other byte is zero. */
  lemma ZeroBytes(name: string, size: nat, mtime: nat, k: nat)
    requires size < 8589934592 && mtime < 8589934592 && (156 < k < 257 || 265 <= k < 512)
    ensures Header(name, size, mtime)[k] == 0
  {
    TwoToThe33();
    SummedKeeps(name, size, mtime);
    FieldHasValue(size, 11);
    FieldHasValue(mtime, 11);
    TailBytes(Identity(name), Encoded(OctalField(size, 11) + NUL), Encoded(OctalField(mtime, 11) + NUL),
              Encoded("        "), Encoded("0"), Encoded("ustar" + NUL), Encoded("00"),
              Encoded(OctalField(Sum(Unsummed(name, size, mtime)), 6) + NUL + " "), k);
    IdentityTail(name, k);
  }

  lemma IdentityTail(name: string, k: nat)
    requires 124 <= k < 512
    ensures Identity(name)[k] == 0
  {
  }

  lemma TailBytes(h: seq<Byte>, size: seq<Byte>, time: seq<Byte>, spaces: seq<Byte>, flag: seq<Byte>, magic: seq<Byte>,
                  version: seq<Byte>, sum: seq<Byte>, k: nat)
    requires |h| == 512 && |size| == |time| == 12 && |spaces| == |sum| == 8
    requires |flag| == 1 && |magic| == 6 && |version| == 2
    requires 156 < k < 257 || 265 <= k < 512
    ensures var r := Put(Put(Put(Put(Put(Put(Put(h, 124, size), 136, time), 148, spaces), 156, flag), 257, magic), 263, version),
                         148, sum);
      r[k] == h[k]
  {
  }

  // -- Where the contents lie ------------------------------------------------------------------------

  /** The blocks before the end of an archive. */
  function Body(files: seq<Entry>, mtime: nat): seq<Byte> {
    var archive := Archive(files, mtime);
    if |archive| < 1024 then archive else archive[..|archive| - 1024]
  }

  lemma {:induction false} BodyIsBlocks(files: seq<Entry>, mtime: nat)
    ensures |Archive(files, mtime)| >= 1024 && Body(files, mtime) == Blocks(files, mtime)
    ensures forall k :: |Archive(files, mtime)| - 1024 <= k < |Archive(files, mtime)| ==> Archive(files, mtime)[k] == 0
  {
    ArchiveContinues(files, [], mtime);
    assert files + [] == files;
    assert Archive(files, mtime) == Blocks(files, mtime) + Zeros(1024);
  }

  /** An archive ends in 1024 zeros. One more file adds its header, its content, and fewer than 512 zeros, to a
      whole number of blocks. */
  lemma OneMoreFile(files: seq<Entry>, file: Entry, mtime: nat)
    ensures |Archive(files, mtime)| >= 1024
    ensures forall k :: |Archive(files, mtime)| - 1024 <= k < |Archive(files, mtime)| ==> Archive(files, mtime)[k] == 0
    ensures Body([], mtime) == []
    ensures var pad := (512 - |file.content| % 512) % 512;
      Body(files + [file], mtime)
        == Body(files, mtime) + Header(file.name, |file.content|, mtime) + file.content + Zeros(pad)
    ensures forall n, k :: 0 <= k < n ==> Zeros(n)[k] == 0
  {
    BodyIsBlocks(files, mtime);
    BodyIsBlocks(files + [file], mtime);
    BodyIsBlocks([], mtime);
    assert (files + [file])[..|files|] == files;
    PaddedIs(file.content);
    var header, zeros := Header(file.name, |file.content|, mtime), Zeros((512 - |file.content| % 512) % 512);
    ConcatAssociates(Body(files, mtime), header, Padded(file.content));
    ConcatAssociates(Body(files, mtime) + header, file.content, zeros);
  }

  lemma PaddedIs(content: seq<Byte>)
    ensures Padded(content) == content + Zeros((512 - |content| % 512) % 512)
  {
    RoundUpIs(|content|, |content| / 512, |content| % 512);
  }

  lemma RoundUpIs(n: nat, q: nat, r: nat)
    requires n == 512 * q + r && r < 512
    ensures RoundUp(n) == n + (512 - r) % 512
  {
    assert BlockCount(n) == if r == 0 then q else q + 1;
  }
}
