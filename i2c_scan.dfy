/** The I2C bus scan (src/demos/i2c_scan.c): a 16-column table of the 7-bit
    addresses, "@" where a device acknowledged a one-byte read. The bus is an
    input: `probe[a]` is what `i2c_read_blocking` returns at address `a`. */
module I2cScan {
  const AddressCount := 128
  /** `PICO_ERROR_GENERIC`, the result recorded for a skipped address. */
  const ErrorGeneric := -1

  function Header(): string { "\n   0  1  2  3  4  5  6  7  8  9  a  b  c  d  e  f\n" }
  function Footer(): string { "Scan finished.\n" }

  /** `reserved_addr`: the addresses of the form 0000xxx and 1111xxx. */
  predicate Reserved(a: bv8)
  {
    a & 0x78 == 0 || a & 0x78 == 0x78
  }

  /** An address the scan reads from: a 7-bit address that is not reserved. */
  predicate Probed(a: int)
  {
    0 <= a < 0x80 && !Reserved(a as bv8)
  }

  /** On 7-bit addresses the reserved ones are 0..7 and 0x78..0x7F. */
  lemma ReservedRange(a: bv8)
    requires a < 0x80
    ensures Reserved(a) <==> a <= 7 || a >= 0x78
  {
  }

  function HexDigit(d: nat): (c: char)
    requires d < 16
    ensures (d < 10 ==> c == '0' + d as char) && (d >= 10 ==> c == 'a' + (d - 10) as char)
  {
    "0123456789abcdef"[d]
  }

  /** `%02x`: two lower-case hex digits. */
  function Hex2(n: nat): (s: string)
    requires n < 256
    ensures |s| == 2 && s[0] == HexDigit(n / 16) && s[1] == HexDigit(n % 16)
  {
    [HexDigit(n / 16), HexDigit(n % 16)]
  }

  /** The row label printed before each address divisible by 16. */
  function Label(a: nat): (s: string)
    requires a < AddressCount
    ensures a % 16 != 0 <==> s == ""
    ensures a % 16 == 0 ==> s == Hex2(a) + " "
  {
    if a % 16 == 0 then Hex2(a) + " " else ""
  }

  /** The eight rows are labelled 00 to 70. */
  lemma RowLabel(r: nat)
    requires r < 8
    ensures Label(16 * r) == ['0' + r as char, '0', ' ']
  {
  }

  /** "@" exactly for an unreserved address whose probe returned at least 0. */
  function Mark(a: nat, ret: int): (c: char)
    requires a < AddressCount
    ensures c == '@' || c == '.'
    ensures c == '@' <==> !Reserved(a as bv8) && ret >= 0
  {
    var r := if Reserved(a as bv8) then ErrorGeneric else ret;
    if r < 0 then '.' else '@'
  }

  function Separator(a: nat): (s: string)
    ensures s == "\n" <==> a % 16 == 15
    ensures s == "\n" || s == "  "
  {
    if a % 16 == 15 then "\n" else "  "
  }

  /** What the loop prints for one address. */
  function Cell(a: nat, ret: int): string
    requires a < AddressCount
  {
    Label(a) + [Mark(a, ret)] + Separator(a)
  }

  function Concat(parts: seq<string>): string
  {
    if |parts| == 0 then "" else Concat(parts[..|parts| - 1]) + parts[|parts| - 1]
  }

  lemma AppendAssoc(a: string, b: string, c: string)
    ensures (a + b) + c == a + (b + c)
  {
  }

  lemma ConcatSnoc(parts: seq<string>, last: string)
    ensures Concat(parts + [last]) == Concat(parts) + last
  {
    assert (parts + [last])[..|parts|] == parts;
  }

  /** A cell ends with a newline exactly at the end of a row, and a reserved
      address prints "." whatever the bus would say. */
  lemma CellShape(a: nat, ret: int, ret': int)
    requires a < AddressCount
    ensures var c := Cell(a, ret);
      && (c[|c| - 1] == '\n' <==> a % 16 == 15)
      && (Reserved(a as bv8) ==> Cell(a, ret) == Cell(a, ret') && c[|Label(a)|] == '.')
      && c[|Label(a)|] == Mark(a, ret)
  {
  }

  /** The addresses below `n` that the scan reads from, in order. */
  function ProbedBelow(n: nat): seq<nat>
  {
    if n == 0 then [] else ProbedBelow(n - 1) + (if Probed(n - 1) then [n - 1] else [])
  }

  /** The list holds exactly the unreserved addresses below `n`. */
  lemma {:induction false} ProbedBelowMembers(n: nat)
    ensures forall a :: a in ProbedBelow(n) <==> a < n && Probed(a)
  {
    if n > 0 {
      ProbedBelowMembers(n - 1);
      var tail := if Probed(n - 1) then [n - 1] else [];
      assert ProbedBelow(n) == ProbedBelow(n - 1) + tail;
      forall a ensures a in ProbedBelow(n) <==> a < n && Probed(a) {
        assert a in ProbedBelow(n) <==> a in ProbedBelow(n - 1) || a in tail;
      }
    }
  }

  /** The list is strictly ascending and bounded by `n`. */
  lemma {:induction false} ProbedBelowAscending(n: nat)
    ensures forall i, j :: 0 <= i < j < |ProbedBelow(n)| ==> ProbedBelow(n)[i] < ProbedBelow(n)[j]
    ensures forall i :: 0 <= i < |ProbedBelow(n)| ==> ProbedBelow(n)[i] < n
  {
    if n > 0 {
      ProbedBelowAscending(n - 1);
    }
  }

  /** The cells printed for the addresses below `n`. */
  function CellsBelow(probe: seq<int>, n: nat): seq<string>
    requires n <= |probe| && n <= AddressCount
  {
    if n == 0 then [] else CellsBelow(probe, n - 1) + [Cell(n - 1, probe[n - 1])]
  }

  lemma {:induction false} CellsBelowIndex(probe: seq<int>, n: nat)
    requires n <= |probe| && n <= AddressCount
    ensures |CellsBelow(probe, n)| == n
    ensures forall a :: 0 <= a < n ==> CellsBelow(probe, n)[a] == Cell(a, probe[a])
  {
    if n > 0 {
      CellsBelowIndex(probe, n - 1);
    }
  }

  /** One pass of the scan loop at `addr`: the printed cell, and whether the
      bus was read (the reply `ret` is used only then). */
  method ScanAddress(addr: nat, ret: int) returns (cell: string, read: bool)
    requires addr < AddressCount
    ensures cell == Cell(addr, ret)
    ensures read <==> Probed(addr)
  {
    var rowLabel := "";
    if addr % 16 == 0 {
      rowLabel := Hex2(addr) + " ";
    }
    var r;
    if Reserved(addr as bv8) {
      r, read := ErrorGeneric, false;
    } else {
      r, read := ret, true;
    }
    var mark := if r < 0 then '.' else '@';
    cell := rowLabel + [mark] + (if addr % 16 == 15 then "\n" else "  ");
    assert rowLabel == Label(addr) && mark == Mark(addr, ret);
  }

  /** The loop invariant survives one pass at `addr`. */
  lemma ScanStep(probe: seq<int>, addr: nat, cells: seq<string>, text: string, probed: seq<nat>,
                 cell: string, read: bool)
    requires addr < |probe| && addr < AddressCount
    requires cells == CellsBelow(probe, addr) && text == Header() + Concat(cells)
    requires probed == ProbedBelow(addr)
    requires cell == Cell(addr, probe[addr]) && (read <==> Probed(addr))
    ensures cells + [cell] == CellsBelow(probe, addr + 1)
    ensures text + cell == Header() + Concat(cells + [cell])
    ensures (if read then probed + [addr] else probed) == ProbedBelow(addr + 1)
  {
    ConcatSnoc(cells, cell);
    AppendAssoc(Header(), Concat(cells), cell);
  }

  /** `i2c_scan_demo_execute` up to its final idle loop: the printed text, the
      cells in order, and the addresses at which a read was attempted. */
  method Scan(probe: seq<int>) returns (text: string, cells: seq<string>, probed: seq<nat>)
    requires |probe| == AddressCount
    ensures |cells| == AddressCount
    ensures forall a :: 0 <= a < AddressCount ==> cells[a] == Cell(a, probe[a])
    ensures text == Header() + Concat(cells) + Footer()
    ensures forall a :: a in probed <==> Probed(a)
    ensures forall i, j :: 0 <= i < j < |probed| ==> probed[i] < probed[j]
  {
    text := Header();
    cells := [];
    probed := [];
    for addr := 0 to AddressCount
      invariant cells == CellsBelow(probe, addr)
      invariant text == Header() + Concat(cells)
      invariant probed == ProbedBelow(addr)
    {
      var cell, read := ScanAddress(addr, probe[addr]);
      ScanStep(probe, addr, cells, text, probed, cell, read);
      if read {
        probed := probed + [addr];
      }
      cells := cells + [cell];
      text := text + cell;
    }
    text := text + Footer();
    ProbedBelowMembers(AddressCount);
    ProbedBelowAscending(AddressCount);
    CellsBelowIndex(probe, AddressCount);
  }
}
