/** Boot-configuration (CCFG) check for CC2650 firmware images.

    `has_valid_ccfg` converts the ELF image to Intel HEX with `objcopy`, reads
    the 88-byte CCFG block that ends the last flash page, and accepts the image
    when the 4-byte field at offset 48 of that block is blank (`FF FF FF FF`)
    or holds the bootloader signature `C5 0B FE C5`. The converter is a
    collaborator: its outcome and the image it produced are inputs here.
 */
module Cc2650Verifier {
  import opened CommandLine
  import opened Options

  type byte = x: int | 0 <= x < 0x100

  /** Default timeout of the verifier, in the units of `subprocess_timeout`. */
  const TIMEOUT: int := 100

  /** First address of the CCFG block and its length. */
  const CCFG_START: nat := 0x0001_FFA8
  const CCFG_SIZE: nat := 88
  /** End of the flash: the CCFG block is the tail of the last page. */
  const FLASH_END: nat := 0x0002_0000
  /** The bytes `[48:52]` of the block are the inspected field. */
  const FIELD_START: nat := 48
  const FIELD_END: nat := 52
  /** The value an address not present in the HEX file reads as. */
  const PAD: byte := 0xFF

  const BLANK_FIELD: seq<byte> := [0xFF, 0xFF, 0xFF, 0xFF]
  const BOOTLOADER_FIELD: seq<byte> := [0xC5, 0x0B, 0xFE, 0xC5]

  /** Where the converter's standard output and error go. */
  datatype Output = Inherit | DevNull

  /** A `Cc2650FirmwareVerifier` instance. */
  datatype Verifier = Verifier(timeout: int, out: Output)

  /** The constructor: `verb` keeps the converter's output, otherwise it is
      sent to the null device; the timeout is stored as given. */
  function NewVerifier(verb: bool := false, timeout: int := TIMEOUT): (v: Verifier)
    ensures v.timeout == timeout
    ensures v.out == Inherit <==> verb
  {
    Verifier(timeout, if verb then Inherit else DevNull)
  }

  /** How a converter run ended: with an exit status, or killed on timeout. */
  datatype CmdRun = Exited(status: int) | TimedOut

  /** `_call_cmd`: the exit status, and 1 when the timeout expired, so that no
      exception reaches the caller. */
  function CallCmd(run: CmdRun): (ret: int)
    ensures ret == 0 <==> run == Exited(0)
    ensures run.Exited? ==> ret == run.status
    ensures run.TimedOut? ==> ret == 1
  {
    match run
    case Exited(status) => status
    case TimedOut => 1
  }

  /** The converter command template `objcopy -I elf32-big -O ihex {elf} {hex}`. */
  const TO_HEX_TEMPLATE: seq<Piece> :=
    [Text("objcopy -I elf32-big -O ihex "), Field("elf"), Text(" "), Field("hex")]

  /** The converter command for an ELF path and a temporary HEX path. */
  function ToHexCommand(elf: string, hex: string): (cmd: string)
    ensures cmd == "objcopy -I elf32-big -O ihex " + elf + " " + hex
  {
    FormatToHexTemplate(elf, hex);
    Format(TO_HEX_TEMPLATE, ToHexFields(elf, hex)).value
  }

  /** The fields the converter template is filled with. */
  function ToHexFields(elf: string, hex: string): map<string, string> {
    map["elf" := elf, "hex" := hex]
  }

  /** Filling the converter template piece by piece. */
  lemma FormatToHexTemplate(elf: string, hex: string)
    ensures Format(TO_HEX_TEMPLATE, ToHexFields(elf, hex))
         == Some("objcopy -I elf32-big -O ihex " + elf + " " + hex)
  {
    var fields := ToHexFields(elf, hex);
    var t := TO_HEX_TEMPLATE;
    assert t[3..][1..] == [] && t[2..][1..] == t[3..] && t[1..][1..] == t[2..];
    assert Format(t[3..], fields) == Some(hex + "");
    assert hex + "" == hex;
    assert Format(t[1..], fields) == Some(elf + (" " + hex));
    assert "objcopy -I elf32-big -O ihex " + (elf + (" " + hex))
        == "objcopy -I elf32-big -O ihex " + elf + " " + hex;
  }

  /** The Intel HEX file produced by the converter: the bytes it defines. */
  datatype HexImage = HexImage(mem: map<nat, byte>)

  /** The byte at `addr`; addresses the file leaves out read as padding. */
  function Read(img: HexImage, addr: nat): byte {
    if addr in img.mem then img.mem[addr] else PAD
  }

  /** The HEX file defines at least one byte. */
  predicate HasData(img: HexImage) {
    img.mem != map[]
  }

  /** `size` consecutive bytes from `start`, gaps filled with padding. */
  function Padded(img: HexImage, start: nat, size: nat): (r: seq<byte>)
    ensures |r| == size
    ensures forall i :: 0 <= i < size ==> r[i] == Read(img, start + i)
    decreases size
  {
    if size == 0 then [] else [Read(img, start)] + Padded(img, start + 1, size - 1)
  }

  /** `IntelHex.tobinarray(start=..., size=...)`: a file that defines no byte
      gives an empty array (a start without an end returns early); otherwise
      `size` consecutive bytes from `start`, gaps filled with padding. A
      non-positive size raises in the library, so callers pass a positive one. */
  function ToBinArray(img: HexImage, start: nat, size: nat): (r: seq<byte>)
    requires size > 0
    ensures !HasData(img) <==> r == []
    ensures HasData(img) ==> |r| == size
    ensures HasData(img) ==> forall i :: 0 <= i < size ==> r[i] == Read(img, start + i)
  {
    if !HasData(img) then [] else Padded(img, start, size)
  }

  /** The CCFG block of an image: the 88 bytes that end the flash, or nothing
      for a file without data. */
  function CcfgBlock(img: HexImage): (b: seq<byte>)
    ensures HasData(img) ==> |b| == CCFG_SIZE && CCFG_START + |b| == FLASH_END
    ensures HasData(img) ==> 0 <= FIELD_START <= FIELD_END <= |b|
    ensures HasData(img) ==> forall i :: 0 <= i < |b| ==> b[i] == Read(img, CCFG_START + i)
    ensures !HasData(img) ==> b == []
  {
    ToBinArray(img, CCFG_START, CCFG_SIZE)
  }

  /** Python's `s[lo:hi]` for `0 <= lo <= hi`: bounds past the end are cut
      back to the length, so slicing a short sequence never fails. */
  function Slice<T>(s: seq<T>, lo: nat, hi: nat): (r: seq<T>)
    requires lo <= hi
    ensures hi <= |s| ==> r == s[lo..hi]
    ensures |s| <= lo ==> r == []
    ensures lo < |s| < hi ==> r == s[lo..]
    ensures |r| <= hi - lo
  {
    var l := if lo <= |s| then lo else |s|;
    var h := if hi <= |s| then hi else |s|;
    s[l..h]
  }

  /** Absolute addresses of the inspected field. */
  const FIELD_ADDR: nat := CCFG_START + FIELD_START

  /** The inspected field read straight from the image by absolute address. */
  function FieldAt(img: HexImage): (f: seq<byte>)
    ensures |f| == 4
  {
    [Read(img, FIELD_ADDR), Read(img, FIELD_ADDR + 1), Read(img, FIELD_ADDR + 2), Read(img, FIELD_ADDR + 3)]
  }

  /** An accepted value of the field. */
  predicate Accepted(f: seq<byte>) {
    f == BLANK_FIELD || f == BOOTLOADER_FIELD
  }

  /** A slice of a padded range is the padded sub-range. */
  lemma BinArraySlice(img: HexImage, start: nat, size: nat, lo: nat, hi: nat)
    requires lo <= hi <= size
    ensures Padded(img, start, size)[lo..hi] == Padded(img, start + lo, hi - lo)
  {
    var a := Padded(img, start, size)[lo..hi];
    var b := Padded(img, start + lo, hi - lo);
    assert |a| == |b|;
    forall k | 0 <= k < |a|
      ensures a[k] == b[k]
    {
      assert a[k] == Padded(img, start, size)[lo + k];
    }
  }

  /** Padding the four field addresses reads them one by one. */
  lemma FieldBytes(hex: HexImage)
    ensures Padded(hex, FIELD_ADDR, 4) == FieldAt(hex)
  {
    var a := Padded(hex, FIELD_ADDR, 4);
    assert a[0] == Read(hex, FIELD_ADDR);
    assert a[1] == Read(hex, FIELD_ADDR + 1);
    assert a[2] == Read(hex, FIELD_ADDR + 2);
    assert a[3] == Read(hex, FIELD_ADDR + 3);
  }

  /** `ccfg[48:52]` is the field at 0x1FFD8..0x1FFDB when the file has data,
      and empty when it has none. */
  lemma FieldOfBlock(hex: HexImage)
    ensures HasData(hex) ==> Slice(CcfgBlock(hex), FIELD_START, FIELD_END) == FieldAt(hex)
    ensures !HasData(hex) ==> Slice(CcfgBlock(hex), FIELD_START, FIELD_END) == []
  {
    if HasData(hex) {
      assert CcfgBlock(hex) == Padded(hex, CCFG_START, CCFG_SIZE);
      BinArraySlice(hex, CCFG_START, CCFG_SIZE, FIELD_START, FIELD_END);
      FieldBytes(hex);
    }
  }

  /** `has_valid_ccfg`: `run` is how the converter ended and `hex` the file it
      wrote. The verdict is true exactly when the conversion succeeded, the
      file defines some byte, and the four bytes at 0x1FFD8..0x1FFDB hold an
      accepted value. */
  function HasValidCcfg(run: CmdRun, hex: HexImage): (ok: bool)
    ensures ok <==> run == Exited(0) && HasData(hex) && Accepted(FieldAt(hex))
  {
    var ret := CallCmd(run);
    if ret == 0 then
      var ccfg := CcfgBlock(hex);
      FieldOfBlock(hex);
      if Slice(ccfg, FIELD_START, FIELD_END) == BLANK_FIELD then true
      else if Slice(ccfg, FIELD_START, FIELD_END) == BOOTLOADER_FIELD then true
      else false
    else false
  }

  /** The image with one byte replaced. */
  function Write(img: HexImage, addr: nat, b: byte): (r: HexImage)
    ensures Read(r, addr) == b
    ensures forall a :: a != addr ==> Read(r, a) == Read(img, a)
  {
    HexImage(img.mem[addr := b])
  }

  /** The fixed words of the converter command, before the two paths. */
  const TO_HEX_OPTIONS: seq<string> := ["objcopy", "-I", "elf32-big", "-O", "ihex"]

  /** The converter's argument vector after `shlex.split`, for plain paths:
      the fixed words, the ELF path, the HEX path. */
  lemma ToHexArgv(elf: string, hex: string)
    requires IsToken(elf) && IsToken(hex)
    ensures Split(ToHexCommand(elf, hex)) == TO_HEX_OPTIONS + [elf, hex]
  {
    assert forall i :: 0 <= i < |TO_HEX_OPTIONS| ==> IsToken(TO_HEX_OPTIONS[i]);
    calc {
      Split(ToHexCommand(elf, hex));
      { ToHexCommandWords(elf, hex); }
      Split(Join(TO_HEX_OPTIONS) + " " + (elf + " " + hex));
      { SplitJoinThen(TO_HEX_OPTIONS, elf + " " + hex); }
      TO_HEX_OPTIONS + Split(elf + " " + hex);
      { SplitToken(hex); SplitCons(elf, hex); }
      TO_HEX_OPTIONS + [elf, hex];
    }
  }

  lemma ToHexCommandWords(elf: string, hex: string)
    ensures ToHexCommand(elf, hex) == Join(TO_HEX_OPTIONS) + " " + (elf + " " + hex)
  {
    JoinToHexOptions();
    assert "objcopy -I elf32-big -O ihex" + " " == "objcopy -I elf32-big -O ihex ";
  }

  lemma JoinToHexOptions()
    ensures Join(TO_HEX_OPTIONS) == "objcopy -I elf32-big -O ihex"
  {
  }

  /** A failed or timed-out conversion rejects the image whatever the file
      holds. */
  lemma ConversionFailureRejects(run: CmdRun, hex: HexImage)
    requires CallCmd(run) != 0
    ensures !HasValidCcfg(run, hex)
  {
  }

  lemma TimeoutRejects(hex: HexImage)
    ensures CallCmd(TimedOut) == 1
    ensures !HasValidCcfg(TimedOut, hex)
  {
  }

  /** After a successful conversion of a file with data, the verdict is
      decided by the field alone, in both directions. */
  lemma FieldDecides(hex: HexImage)
    ensures HasData(hex) && FieldAt(hex) == BLANK_FIELD ==> HasValidCcfg(Exited(0), hex)
    ensures HasData(hex) && FieldAt(hex) == BOOTLOADER_FIELD ==> HasValidCcfg(Exited(0), hex)
    ensures FieldAt(hex) != BLANK_FIELD && FieldAt(hex) != BOOTLOADER_FIELD
            ==> !HasValidCcfg(Exited(0), hex)
  {
  }

  /** A HEX file that defines no byte at all is rejected even after a
      successful conversion: its array is empty, so `ccfg[48:52]` matches
      neither value, although its field would pad to `FF FF FF FF`. */
  lemma EmptyImageRejects(run: CmdRun)
    ensures FieldAt(HexImage(map[])) == BLANK_FIELD
    ensures !HasValidCcfg(run, HexImage(map[]))
  {
  }

  /** Two images that agree on 0x1FFD8..0x1FFDB, and on whether they hold
      any data, get the same verdict. */
  lemma OnlyFieldMatters(run: CmdRun, a: HexImage, b: HexImage)
    requires HasData(a) <==> HasData(b)
    requires forall addr :: FIELD_ADDR <= addr < FIELD_ADDR + 4 ==> Read(a, addr) == Read(b, addr)
    ensures HasValidCcfg(run, a) == HasValidCcfg(run, b)
  {
    assert FieldAt(a) == FieldAt(b) by {
      assert Read(a, FIELD_ADDR) == Read(b, FIELD_ADDR);
      assert Read(a, FIELD_ADDR + 1) == Read(b, FIELD_ADDR + 1);
      assert Read(a, FIELD_ADDR + 2) == Read(b, FIELD_ADDR + 2);
      assert Read(a, FIELD_ADDR + 3) == Read(b, FIELD_ADDR + 3);
    }
  }

  /** Writing any byte outside the field leaves the verdict of a file with
      data unchanged; written into a file without data, it leaves a blank
      field, accepted exactly when the conversion succeeded. */
  lemma WriteOutsideFieldKeepsVerdict(run: CmdRun, hex: HexImage, addr: nat, b: byte)
    requires addr < FIELD_ADDR || FIELD_ADDR + 4 <= addr
    ensures HasData(hex) ==> HasValidCcfg(run, Write(hex, addr, b)) == HasValidCcfg(run, hex)
    ensures !HasData(hex) ==> HasValidCcfg(run, Write(hex, addr, b)) == (run == Exited(0))
  {
    var w := Write(hex, addr, b);
    assert addr in w.mem;
    if HasData(hex) {
      OnlyFieldMatters(run, w, hex);
    } else {
      OnlyFieldMatters(run, w, WithField(BLANK_FIELD));
    }
  }

  /** A HEX file with data that defines nothing in the CCFG block is the
      filled gap: every byte pads to 0xFF and the image is accepted. */
  lemma FilledGapAccepted(hex: HexImage)
    requires HasData(hex)
    requires forall addr :: CCFG_START <= addr < FLASH_END ==> addr !in hex.mem
    ensures HasValidCcfg(Exited(0), hex)
  {
    assert FieldAt(hex) == BLANK_FIELD by {
      assert FIELD_ADDR !in hex.mem && FIELD_ADDR + 1 !in hex.mem;
      assert FIELD_ADDR + 2 !in hex.mem && FIELD_ADDR + 3 !in hex.mem;
    }
  }

  /** The image whose only defined bytes are `f` at the field's addresses. */
  function WithField(f: seq<byte>): (img: HexImage)
    requires |f| == 4
    ensures FieldAt(img) == f
    ensures FIELD_ADDR in img.mem
  {
    HexImage(map[FIELD_ADDR := f[0], FIELD_ADDR + 1 := f[1], FIELD_ADDR + 2 := f[2], FIELD_ADDR + 3 := f[3]])
  }

  /** The three example fields: blank and signature pass, zeros fail. */
  lemma ExampleFields()
    ensures HasValidCcfg(Exited(0), WithField([0xFF, 0xFF, 0xFF, 0xFF]))
    ensures HasValidCcfg(Exited(0), WithField([0xC5, 0x0B, 0xFE, 0xC5]))
    ensures !HasValidCcfg(Exited(0), WithField([0x00, 0x00, 0x00, 0x00]))
    ensures !HasValidCcfg(Exited(1), WithField([0xC5, 0x0B, 0xFE, 0xC5]))
  {
  }

  /** The default verifier waits 100 and discards the converter's output. */
  lemma DefaultVerifier()
    ensures NewVerifier().timeout == TIMEOUT == 100
    ensures NewVerifier().out == DevNull
    ensures NewVerifier(true, 7) == Verifier(7, Inherit)
  {
  }
}
