/** The archive writer of the export before compression, and a reader written from the ustar Interchange
    Format of POSIX.1 (section "pax", Extended Description). */
module Ustar {
  import opened Sequences
  import opened Wrappers

  type Byte = b: int | 0 <= b < 256

  datatype Entry = Entry(name: string, content: seq<Byte>)

  const BLOCK := 512

  /** `header.write(text, offset, "ascii")` stores the low eight bits of every character. */
  function Encoded(text: string): (r: seq<Byte>)
    ensures |r| == |text|
  {
    seq(|text|, i requires 0 <= i < |text| => text[i] as int % 256)
  }

  function Zeros(n: nat): (r: seq<Byte>)
    ensures |r| == n
  {
    seq(n, _ => 0)
  }

  /** A write into a buffer, clipped at the end of the buffer. */
  function Put(buffer: seq<Byte>, offset: nat, bytes: seq<Byte>): (r: seq<Byte>)
    ensures |r| == |buffer|
  {
    seq(|buffer|, i requires 0 <= i < |buffer| =>
      if offset <= i < offset + |bytes| then bytes[i - offset] else buffer[i])
  }

  method WriteAt(buffer: array<Byte>, offset: nat, bytes: seq<Byte>)
    modifies buffer
    ensures buffer[..] == Put(old(buffer[..]), offset, bytes)
  {
    var k := 0;
    while k < |bytes| && offset + k < buffer.Length
      invariant 0 <= k <= |bytes|
      invariant forall i :: 0 <= i < buffer.Length ==>
        buffer[i] == if offset <= i < offset + k then bytes[i - offset] else old(buffer[i])
    {
      buffer[offset + k] := bytes[k];
      k := k + 1;
    }
  }

  // -- Octal numbers -------------------------------------------------------------------------------

  /** `n.toString(8)`. */
  function Octal(n: nat): (digits: string)
    ensures digits != []
  {
    var last := [('0' as int + n % 8) as char];
    if n < 8 then last else Octal(n / 8) + last
  }

  function PadStart(text: string, width: nat): (r: string)
    ensures |r| == if |text| < width then width else |text|
  {
    if |text| < width then seq(width - |text|, _ => '0') + text else text
  }

  function Pow8(k: nat): (r: nat)
    ensures r >= 1
  {
    if k == 0 then 1 else 8 * Pow8(k - 1)
  }

  function OctalField(n: nat, width: nat): string {
    PadStart(Octal(n), width)
  }

  predicate IsOctal(b: int) {
    '0' as int <= b <= '7' as int
  }

  /** The number that octal digits stand for, the last one the least significant. */
  function Value(digits: seq<Byte>): nat
    requires forall b :: b in digits ==> IsOctal(b)
  {
    if digits == [] then 0
    else
      var last := digits[|digits| - 1];
      assert IsOctal(last);
      8 * Value(digits[..|digits| - 1]) + (last - '0' as int)
  }

  lemma {:induction false} OctalIsShort(n: nat, width: nat)
    requires width >= 1 && n < Pow8(width)
    ensures |Octal(n)| <= width
    decreases n
  {
    if n >= 8 {
      assert width > 1 by { assert Pow8(1) == 8 * Pow8(0); }
      OctalIsShort(n / 8, width - 1);
    }
  }

  lemma {:induction false} OctalHasValue(n: nat)
    ensures forall b :: b in Encoded(Octal(n)) ==> IsOctal(b)
    ensures Value(Encoded(Octal(n))) == n
    decreases n
  {
    var last := Encoded([('0' as int + n % 8) as char]);
    assert last == ['0' as int + n % 8];
    if n >= 8 {
      OctalHasValue(n / 8);
      var all := Encoded(Octal(n));
      assert all == Encoded(Octal(n / 8)) + last;
      assert all[..|all| - 1] == Encoded(Octal(n / 8));
    } else {
      assert Encoded(Octal(n)) == last;
      assert last[..0] == [];
    }
  }

  lemma {:induction false} PaddingKeepsValue(digits: seq<Byte>, zeros: nat)
    requires forall b :: b in digits ==> IsOctal(b)
    ensures var padded := seq(zeros, _ => '0' as int) + digits;
      (forall b :: b in padded ==> IsOctal(b)) && Value(padded) == Value(digits)
    decreases |digits|, zeros
  {
    var padding: seq<Byte> := seq(zeros, _ => '0' as int);
    var padded := padding + digits;
    if digits != [] {
      PaddingKeepsValue(digits[..|digits| - 1], zeros);
      assert padded[..|padded| - 1] == padding + digits[..|digits| - 1];
    } else if zeros > 0 {
      PaddingKeepsValue([], zeros - 1);
      var less: seq<Byte> := seq(zeros - 1, _ => '0' as int);
      assert padded[..|padded| - 1] == less + [];
    }
  }

  lemma FieldHasValue(n: nat, width: nat)
    requires width >= 1 && n < Pow8(width)
    ensures |OctalField(n, width)| == width
    ensures forall b :: b in Encoded(OctalField(n, width)) ==> IsOctal(b)
    ensures Value(Encoded(OctalField(n, width))) == n
  {
    var digits := Octal(n);
    OctalIsShort(n, width);
    OctalHasValue(n);
    PaddingKeepsValue(Encoded(digits), width - |digits|);
    assert Encoded(OctalField(n, width)) == seq(width - |digits|, _ => '0' as int) + Encoded(digits);
  }

  // -- The header ----------------------------------------------------------------------------------

  function Sum(bytes: seq<Byte>): nat {
    if bytes == [] then 0 else Sum(bytes[..|bytes| - 1]) + bytes[|bytes| - 1]
  }

  lemma {:induction false} SumIsBounded(bytes: seq<Byte>)
    ensures Sum(bytes) <= 255 * |bytes|
    decreases |bytes|
  {
    if bytes != [] {
      SumIsBounded(bytes[..|bytes| - 1]);
    }
  }

  const NUL := "\0"

  function Shortened(name: string): string {
    if |name| < 99 then name else name[..99]
  }

  /** The name, the mode, and the owner and group. */
  function Identity(name: string): (h: seq<Byte>)
    ensures |h| == BLOCK
  {
    var h := Put(Zeros(BLOCK), 0, Encoded(Shortened(name)));
    var h := Put(h, 100, Encoded("0000644" + NUL));
    var h := Put(h, 108, Encoded("0000000" + NUL));
    Put(h, 116, Encoded("0000000" + NUL))
  }

  /** The header with spaces in place of the checksum. */
  function Unsummed(name: string, size: nat, mtime: nat): (h: seq<Byte>)
    ensures |h| == BLOCK
  {
    var h := Put(Identity(name), 124, Encoded(OctalField(size, 11) + NUL));
    var h := Put(h, 136, Encoded(OctalField(mtime, 11) + NUL));
    var h := Put(h, 148, Encoded("        "));
    var h := Put(h, 156, Encoded("0"));
    var h := Put(h, 257, Encoded("ustar" + NUL));
    Put(h, 263, Encoded("00"))
  }

  function Header(name: string, size: nat, mtime: nat): (h: seq<Byte>)
    ensures |h| == BLOCK
  {
    var h := Unsummed(name, size, mtime);
    Put(h, 148, Encoded(OctalField(Sum(h), 6) + NUL + " "))
  }

  method ComputeChecksum(header: array<Byte>) returns (checksum: nat)
    requires header.Length == BLOCK
    ensures checksum == Sum(header[..])
  {
    checksum := 0;
    for i := 0 to BLOCK
      invariant checksum == Sum(header[..i])
    {
      assert header[..i + 1][..i] == header[..i];
      checksum := checksum + header[i];
    }
    assert header[..BLOCK] == header[..];
  }

  method WriteHeader(name: string, size: nat, mtime: nat) returns (header: array<Byte>)
    ensures fresh(header) && header[..] == Header(name, size, mtime)
  {
    header := new Byte[BLOCK](_ => 0);
    assert header[..] == Zeros(BLOCK);
    WriteAt(header, 0, Encoded(Shortened(name)));
    WriteAt(header, 100, Encoded("0000644" + NUL));
    WriteAt(header, 108, Encoded("0000000" + NUL));
    WriteAt(header, 116, Encoded("0000000" + NUL));
    WriteAt(header, 124, Encoded(OctalField(size, 11) + NUL));
    WriteAt(header, 136, Encoded(OctalField(mtime, 11) + NUL));
    WriteAt(header, 148, Encoded("        "));
    WriteAt(header, 156, Encoded("0"));
    WriteAt(header, 257, Encoded("ustar" + NUL));
    WriteAt(header, 263, Encoded("00"));
    var checksum := ComputeChecksum(header);
    WriteAt(header, 148, Encoded(OctalField(checksum, 6) + NUL + " "));
  }

  // -- The archive ---------------------------------------------------------------------------------

  /** `Math.ceil(n / 512)`. */
  function BlockCount(n: nat): (r: nat)
    ensures BLOCK * r - BLOCK < n <= BLOCK * r
  {
    if n == 0 then 0 else (n - 1) / BLOCK + 1
  }

  function RoundUp(n: nat): (r: nat)
    ensures n <= r < n + BLOCK
  {
    BLOCK * BlockCount(n)
  }

  function Padded(content: seq<Byte>): (r: seq<Byte>)
    ensures |r| == RoundUp(|content|) && r[..|content|] == content
  {
    content + Zeros(RoundUp(|content|) - |content|)
  }

  function FileBlocks(file: Entry, mtime: nat): seq<Byte> {
    Header(file.name, |file.content|, mtime) + Padded(file.content)
  }

  function Archive(files: seq<Entry>, mtime: nat): seq<Byte> {
    if files == [] then Zeros(2 * BLOCK) else FileBlocks(files[0], mtime) + Archive(files[1..], mtime)
  }

  /** The blocks of the files so far, without the end of the archive. */
  function Blocks(files: seq<Entry>, mtime: nat): seq<Byte> {
    if files == [] then [] else Blocks(files[..|files| - 1], mtime) + FileBlocks(files[|files| - 1], mtime)
  }

  lemma {:induction false} ArchiveContinues(done: seq<Entry>, files: seq<Entry>, mtime: nat)
    ensures Archive(done + files, mtime) == Blocks(done, mtime) + Archive(files, mtime)
    decreases |done|
  {
    if done == [] {
      assert done + files == files;
    } else {
      var last := done[|done| - 1];
      var rest := [last] + files;
      assert done + files == done[..|done| - 1] + rest;
      ArchiveContinues(done[..|done| - 1], rest, mtime);
      assert rest[1..] == files;
      ConcatAssociates(Blocks(done[..|done| - 1], mtime), FileBlocks(last, mtime), Archive(files, mtime));
    }
  }

  method WriteTar(files: seq<Entry>, mtime: nat) returns (archive: seq<Byte>)
    ensures archive == Archive(files, mtime)
  {
    archive := [];
    for k := 0 to |files|
      invariant archive == Blocks(files[..k], mtime)
    {
      var header := WriteHeader(files[k].name, |files[k].content|, mtime);
      var data := new Byte[RoundUp(|files[k].content|)](_ => 0);
      WriteAt(data, 0, files[k].content);
      assert data[..] == Padded(files[k].content);
      assert files[..k + 1][..k] == files[..k];
      ConcatAssociates(archive, header[..], data[..]);
      archive := archive + header[..] + data[..];
    }
    assert files[..|files|] == files && files + [] == files;
    ArchiveContinues(files, [], mtime);
    archive := archive + Zeros(2 * BLOCK);
  }

  // -- A reader of the format ----------------------------------------------------------------------

  predicate AllZero(bytes: seq<Byte>) {
    forall i :: 0 <= i < |bytes| ==> bytes[i] == 0
  }

  predicate Ends(b: int) {
    b == 0 || b == ' ' as int
  }

  /** The bytes before the first one that ends a numeric field. */
  function Leading(field: seq<Byte>): seq<Byte> {
    if field == [] || Ends(field[0]) then [] else [field[0]] + Leading(field[1..])
  }

  /** Octal digits ended by a space or a NUL. */
  function ReadNumber(field: seq<Byte>): Option<nat> {
    var digits := Leading(field);
    if |digits| == |field| || exists b :: b in digits && !IsOctal(b) then None
    else Some(Value(digits))
  }

  /** A name ends at the first NUL, or fills the field. */
  function ReadName(field: seq<Byte>): string {
    if field == [] || field[0] == 0 then [] else [field[0] as char] + ReadName(field[1..])
  }

  /** The sum of the header with the checksum field taken as spaces. */
  function SumOf(block: seq<Byte>): nat
    requires |block| == BLOCK
  {
    Sum(Put(block, 148, Encoded("        ")))
  }

  predicate ValidHeader(block: seq<Byte>)
    requires |block| == BLOCK
  {
    && block[257..263] == Encoded("ustar" + NUL)
    && block[263..265] == Encoded("00")
    && block[156] == '0' as int
    && ReadNumber(block[148..156]) == Some(SumOf(block))
    && ReadNumber(block[124..136]).Some?
  }

  function Read(bytes: seq<Byte>): Option<seq<Entry>>
    decreases |bytes|
  {
    if |bytes| < 2 * BLOCK then None
    else if AllZero(bytes[..BLOCK]) then
      if AllZero(bytes[BLOCK..2 * BLOCK]) then Some([]) else None
    else
      var block := bytes[..BLOCK];
      if !ValidHeader(block) then None
      else
        var size := ReadNumber(block[124..136]).value;
        if |bytes| < BLOCK + RoundUp(size) then None
        else
          match Read(bytes[BLOCK + RoundUp(size)..])
          case None => None
          case Some(rest) => Some([Entry(ReadName(block[..100]), bytes[BLOCK..BLOCK + size])] + rest)
  }

  // -- Reading what was written --------------------------------------------------------------------

  lemma {:induction false} LeadingDigits(digits: seq<Byte>, rest: seq<Byte>)
    requires forall b :: b in digits ==> IsOctal(b)
    requires rest != [] && Ends(rest[0])
    ensures Leading(digits + rest) == digits
  {
    if digits == [] {
      assert digits + rest == rest;
    } else {
      assert digits[0] in digits;
      assert (digits + rest)[1..] == digits[1..] + rest;
      LeadingDigits(digits[1..], rest);
    }
  }

  lemma NumberIsReadBack(n: nat, width: nat, ending: string)
    requires width >= 1 && n < Pow8(width)
    requires ending != [] && (ending[0] == '\0' || ending[0] == ' ')
    ensures ReadNumber(Encoded(OctalField(n, width) + ending)) == Some(n)
  {
    var digits := Encoded(OctalField(n, width));
    FieldHasValue(n, width);
    assert Encoded(OctalField(n, width) + ending) == digits + Encoded(ending);
    LeadingDigits(digits, Encoded(ending));
  }

  /** What the name field gives back: the first 99 characters, up to a NUL, in eight bits each. */
  predicate PlainName(name: string) {
    |name| <= 99 && forall c :: c in name ==> 0 < c as int < 256
  }

  lemma {:induction false} ReadNameOf(name: string, padding: nat)
    requires padding > 0
    ensures ReadName(Encoded(name) + Zeros(padding)) == name <==> forall c :: c in name ==> 0 < c as int < 256
    ensures |ReadName(Encoded(name) + Zeros(padding))| <= |name|
    decreases |name|
  {
    var field := Encoded(name) + Zeros(padding);
    if name != [] {
      assert field[1..] == Encoded(name[1..]) + Zeros(padding);
      ReadNameOf(name[1..], padding);
      assert name == [name[0]] + name[1..];
      assert field[0] == name[0] as int % 256 && name[0] in name;
      if field[0] != 0 {
        assert ReadName(field)[0] == name[0] <==> name[0] as int < 256;
        assert forall c :: c in name <==> c == name[0] || c in name[1..];
        assert ReadName(field)[1..] == ReadName(field[1..]);
        if ReadName(field) == name {
          assert ReadName(field[1..]) == name[1..];
        } else if forall c :: c in name ==> 0 < c as int < 256 {
          assert false;
        }
      }
    }
  }

  predicate InRange(size: nat, mtime: nat) {
    size < Pow8(11) && mtime < Pow8(11)
  }

  lemma IdentityFields(name: string)
    ensures var h := Identity(name);
      && h[..100] == Encoded(Shortened(name)) + Zeros(100 - |Shortened(name)|)
      && h[100..108] == Encoded("0000644" + NUL)
      && h[108..116] == Encoded("0000000" + NUL)
      && h[116..124] == Encoded("0000000" + NUL)
  {
  }

  /** Every byte range of the unsummed header: nothing overlaps when size and mtime have 11 digits. */
  lemma UnsummedFields(name: string, size: nat, mtime: nat)
    requires InRange(size, mtime)
    ensures var h := Unsummed(name, size, mtime);
      && h[..124] == Identity(name)[..124]
      && h[124..136] == Encoded(OctalField(size, 11) + NUL)
      && h[136..148] == Encoded(OctalField(mtime, 11) + NUL)
      && h[148..156] == Encoded("        ")
      && h[156] == '0' as int
      && h[257..263] == Encoded("ustar" + NUL)
      && h[263..265] == Encoded("00")
  {
    FieldHasValue(size, 11);
    FieldHasValue(mtime, 11);
    PutsAreRead(Identity(name), Encoded(OctalField(size, 11) + NUL), Encoded(OctalField(mtime, 11) + NUL),
                Encoded("        "), Encoded("0"), Encoded("ustar" + NUL), Encoded("00"));
  }

  /** Fields that do not overlap read back as they were written. */
  lemma PutsAreRead(h: seq<Byte>, size: seq<Byte>, time: seq<Byte>, sum: seq<Byte>, flag: seq<Byte>, magic: seq<Byte>,
                    version: seq<Byte>)
    requires |h| == BLOCK && |size| == |time| == 12 && |sum| == 8 && |flag| == 1 && |magic| == 6 && |version| == 2
    ensures var r := Put(Put(Put(Put(Put(Put(h, 124, size), 136, time), 148, sum), 156, flag), 257, magic), 263, version);
      && r[..124] == h[..124] && r[124..136] == size && r[136..148] == time && r[148..156] == sum
      && r[156] == flag[0] && r[257..263] == magic && r[263..265] == version
  {
  }

  lemma SummedKeeps(name: string, size: nat, mtime: nat)
    ensures var u, h := Unsummed(name, size, mtime), Header(name, size, mtime);
      && h[..148] == u[..148]
      && h[156] == u[156] && h[257..263] == u[257..263] && h[263..265] == u[263..265]
      && h[148..156] == Encoded(OctalField(Sum(u), 6) + NUL + " ")
      && |OctalField(Sum(u), 6)| == 6 && Sum(u) < Pow8(6)
  {
    var u := Unsummed(name, size, mtime);
    SumIsBounded(u);
    assert Pow8(6) == 262144;
    FieldHasValue(Sum(u), 6);
  }

  lemma RangeOfPrefix(h: seq<Byte>, u: seq<Byte>, n: nat, i: nat, j: nat)
    requires i <= j <= n <= |h| && n <= |u| && h[..n] == u[..n]
    ensures h[i..j] == u[i..j]
  {
    assert h[i..j] == h[..n][i..j] && u[i..j] == u[..n][i..j];
  }

  lemma HeaderFields(name: string, size: nat, mtime: nat)
    requires InRange(size, mtime)
    ensures var h := Header(name, size, mtime);
      && h[..100] == Encoded(Shortened(name)) + Zeros(100 - |Shortened(name)|)
      && !AllZero(h)
      && ReadNumber(h[124..136]) == Some(size)
      && ValidHeader(h)
  {
    var i, u, h := Identity(name), Unsummed(name, size, mtime), Header(name, size, mtime);
    IdentityFields(name);
    UnsummedFields(name, size, mtime);
    SummedKeeps(name, size, mtime);
    RangeOfPrefix(u, i, 124, 0, 100);
    RangeOfPrefix(h, u, 148, 0, 100);
    RangeOfPrefix(h, u, 148, 124, 136);
    NumberIsReadBack(size, 11, NUL);
    assert OctalField(Sum(u), 6) + NUL + " " == OctalField(Sum(u), 6) + (NUL + " ");
    NumberIsReadBack(Sum(u), 6, NUL + " ");
    SumIsOverSpaces(name, size, mtime);
    assert h[0..100] == h[..100] && u[0..100] == u[..100] && i[0..100] == i[..100];
    assert h[156] != 0;
  }

  /** Taking the checksum field as spaces gives back the header that was summed. */
  lemma SumIsOverSpaces(name: string, size: nat, mtime: nat)
    requires InRange(size, mtime)
    ensures SumOf(Header(name, size, mtime)) == Sum(Unsummed(name, size, mtime))
  {
    var u, h := Unsummed(name, size, mtime), Header(name, size, mtime);
    UnsummedFields(name, size, mtime);
    SummedKeeps(name, size, mtime);
    var sum, spaces := Encoded(OctalField(Sum(u), 6) + NUL + " "), Encoded("        ");
    PutTwice(u, 148, sum, spaces);
  }

  lemma PutTwice(buffer: seq<Byte>, offset: nat, bytes: seq<Byte>, back: seq<Byte>)
    requires offset + |back| <= |buffer| && |bytes| == |back| && buffer[offset..offset + |back|] == back
    ensures Put(Put(buffer, offset, bytes), offset, back) == buffer
  {
    var twice := Put(Put(buffer, offset, bytes), offset, back);
    forall k | 0 <= k < |buffer| ensures twice[k] == buffer[k] {
      if offset <= k < offset + |back| {
        assert buffer[k] == buffer[offset..offset + |back|][k - offset];
      }
    }
  }

  lemma ModeIsOctal()
    ensures OctalField(420, 7) == "0000644" && OctalField(0, 7) == "0000000" && 420 < Pow8(7)
  {
    assert Octal(6) == "6";
    assert Octal(52) == Octal(6) + "4";
    assert Octal(420) == Octal(52) + "4";
    assert seq(4, _ => '0') == "0000";
    assert OctalField(420, 7) == "0000" + "644";
    assert Octal(0) == "0";
    assert seq(6, _ => '0') == "000000";
    assert OctalField(0, 7) == "000000" + "0";
    assert Pow8(3) == 512;
    Pow8Grows(3, 7);
  }

  lemma {:induction false} Pow8Grows(a: nat, b: nat)
    requires a <= b
    ensures Pow8(a) <= Pow8(b)
  {
    if a < b {
      Pow8Grows(a, b - 1);
    }
  }

  /** The other numbers of a header: mode 0644, owner and group 0, and the time of the export. */
  lemma HeaderMetadata(name: string, size: nat, mtime: nat)
    requires InRange(size, mtime)
    ensures var h := Header(name, size, mtime);
      && ReadNumber(h[100..108]) == Some(420) && ReadNumber(h[108..116]) == Some(0)
      && ReadNumber(h[116..124]) == Some(0) && ReadNumber(h[136..148]) == Some(mtime)
  {
    var i, u, h := Identity(name), Unsummed(name, size, mtime), Header(name, size, mtime);
    IdentityFields(name);
    UnsummedFields(name, size, mtime);
    SummedKeeps(name, size, mtime);
    RangeOfPrefix(u, i, 124, 100, 108);
    RangeOfPrefix(u, i, 124, 108, 116);
    RangeOfPrefix(u, i, 124, 116, 124);
    RangeOfPrefix(h, u, 148, 100, 108);
    RangeOfPrefix(h, u, 148, 108, 116);
    RangeOfPrefix(h, u, 148, 116, 124);
    RangeOfPrefix(h, u, 148, 136, 148);
    ModeIsOctal();
    NumberIsReadBack(420, 7, NUL);
    NumberIsReadBack(0, 7, NUL);
    NumberIsReadBack(mtime, 11, NUL);
  }

  /** What a reader finds of an entry: its name as far as the field holds it, and all its contents. */
  function Readable(file: Entry): Entry {
    file.(name := ReadName(Encoded(Shortened(file.name)) + Zeros(100 - |Shortened(file.name)|)))
  }

  function AllReadable(files: seq<Entry>): (r: seq<Entry>)
    ensures |r| == |files|
  {
    if files == [] then [] else [Readable(files[0])] + AllReadable(files[1..])
  }

  predicate AllInRange(files: seq<Entry>, mtime: nat) {
    forall f :: f in files ==> InRange(|f.content|, mtime)
  }

  function ArchiveBlocks(files: seq<Entry>): (r: nat)
    ensures r >= 2
  {
    if files == [] then 2 else 1 + BlockCount(|files[0].content|) + ArchiveBlocks(files[1..])
  }

  lemma {:induction false} ArchiveIsWholeBlocks(files: seq<Entry>, mtime: nat)
    ensures |Archive(files, mtime)| == BLOCK * ArchiveBlocks(files)
  {
    if files != [] {
      ArchiveIsWholeBlocks(files[1..], mtime);
    }
  }

  lemma SlicesOf(header: seq<Byte>, data: seq<Byte>, more: seq<Byte>, size: nat)
    requires |header| == BLOCK && size <= |data|
    ensures var bytes := header + data + more;
      bytes[..BLOCK] == header && bytes[BLOCK + |data|..] == more && bytes[BLOCK..BLOCK + size] == data[..size]
  {
  }

  lemma ReadStep(header: seq<Byte>, data: seq<Byte>, more: seq<Byte>, size: nat)
    requires |header| == BLOCK && !AllZero(header) && ValidHeader(header)
    requires ReadNumber(header[124..136]) == Some(size) && |data| == RoundUp(size) && |more| >= 2 * BLOCK
    ensures Read(header + data + more)
         == match Read(more)
            case None => None
            case Some(rest) => Some([Entry(ReadName(header[..100]), data[..size])] + rest)
  {
    SlicesOf(header, data, more, size);
  }

  lemma ReadableFrom(file: Entry, field: seq<Byte>, content: seq<Byte>)
    requires field == Encoded(Shortened(file.name)) + Zeros(100 - |Shortened(file.name)|)
    requires content == file.content
    ensures Readable(file) == Entry(ReadName(field), content)
  {
  }

  /** Reading one entry off the front of an archive. */
  lemma ReadOne(file: Entry, mtime: nat, more: seq<Byte>)
    requires InRange(|file.content|, mtime) && |more| >= 2 * BLOCK
    ensures Read(FileBlocks(file, mtime) + more)
         == match Read(more) case None => None case Some(rest) => Some([Readable(file)] + rest)
  {
    var header, data := Header(file.name, |file.content|, mtime), Padded(file.content);
    HeaderFields(file.name, |file.content|, mtime);
    ReadableFrom(file, header[..100], data[..|file.content|]);
    ReadStep(header, data, more, |file.content|);
    assert FileBlocks(file, mtime) + more == header + data + more;
  }

  /** The archive of any files is read back with every checksum valid: the same entries in the same order
      with the same contents, and names as far as the name field can hold them. */
  lemma {:induction false} ArchiveIsReadable(files: seq<Entry>, mtime: nat)
    requires AllInRange(files, mtime)
    ensures Read(Archive(files, mtime)) == Some(AllReadable(files))
    decreases |files|
  {
    if files == [] {
      var end := Zeros(2 * BLOCK);
      assert AllZero(end[..BLOCK]) && AllZero(end[BLOCK..2 * BLOCK]);
    } else {
      assert files[0] in files;
      ArchiveIsWholeBlocks(files[1..], mtime);
      ArchiveIsReadable(files[1..], mtime);
      ReadOne(files[0], mtime, Archive(files[1..], mtime));
    }
  }

  lemma NameSurvivesIff(file: Entry)
    ensures Readable(file) == file <==> PlainName(file.name)
  {
    var name := Shortened(file.name);
    ReadNameOf(name, 100 - |name|);
    if |file.name| <= 99 {
      assert name == file.name;
    } else {
      assert |Readable(file).name| <= 99;
    }
  }

  lemma {:induction false} AllReadableIsIdentityIff(files: seq<Entry>)
    ensures AllReadable(files) == files <==> forall f :: f in files ==> PlainName(f.name)
  {
    if files != [] {
      NameSurvivesIff(files[0]);
      AllReadableIsIdentityIff(files[1..]);
      assert files == [files[0]] + files[1..];
      assert AllReadable(files)[1..] == AllReadable(files[1..]);
    }
  }

  /** An archive gives back its names and contents exactly when every name has at most 99 characters, none
      of them a NUL or wider than a byte. */
  lemma ArchiveRoundTripIff(files: seq<Entry>, mtime: nat)
    requires AllInRange(files, mtime)
    ensures Read(Archive(files, mtime)) == Some(files) <==> forall f :: f in files ==> PlainName(f.name)
  {
    ArchiveIsReadable(files, mtime);
    AllReadableIsIdentityIff(files);
  }
}
