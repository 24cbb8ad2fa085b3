/**
  The identifier normaliser of the worker: the `preencher_cpf` fallback chain, the CPF
  clean-up chain `fillna('') -> replace(\D, '') -> zfill(11) -> [-11:]`, the validity
  test, and the list of valid CPFs that is sent to the lookup service.
*/
module Normalizer {
  import opened Wrappers

  /** A table cell: `None` stands for a missing column or an empty (NaN) cell. */
  type Cell = Option<string>

  /**
    The columns of the source table the worker reads, by name. `id`, `requestDate` and
    `ticketForm` are the columns at positions 0, 3 and 8; `cpf` is the 'CPF' column
    (position 5), `cpf1` is 'CPF.1' and `raCpf` is '[RA] CPF'.
  */
  datatype RawRow = RawRow(id: Cell, requestDate: Cell, ticketForm: Cell, cpf: Cell, cpf1: Cell, raCpf: Cell)

  /** The placeholder that exports write in an empty CPF cell. */
  const Placeholder: string := "'-"
  const CpfLength: nat := 11
  const ZeroCpf: string := "00000000000"

  /** A candidate CPF cell is usable when it is present, not empty and not the placeholder. */
  predicate Usable(v: Cell) {
    v.Some? && v.value != "" && v.value != Placeholder
  }

  /** Reference reading of a fallback chain: the first usable candidate, or `default` when none is. */
  function FirstUsable(candidates: seq<Cell>, default: Cell): (r: Cell)
    ensures (forall i :: 0 <= i < |candidates| ==> !Usable(candidates[i])) ==> r == default
    ensures forall i :: 0 <= i < |candidates| && Usable(candidates[i]) ==>
                          (exists l :: 0 <= l < i && Usable(candidates[l])) || r == candidates[i]
  {
    if candidates == [] then default
    else if Usable(candidates[0]) then candidates[0]
    else FirstUsable(candidates[1..], default)
  }

  /** `preencher_cpf`: 'CPF' if usable, else the first usable of 'CPF.1' and '[RA] CPF', else 'CPF' as it was. */
  function FillCpf(row: RawRow): (v: Cell)
    ensures v == FirstUsable([row.cpf, row.cpf1, row.raCpf], row.cpf)
  {
    var candidates := [row.cpf, row.cpf1, row.raCpf];
    assert candidates[1..] == [row.cpf1, row.raCpf] && candidates[2..] == [row.raCpf];
    assert candidates[1..][1..] == candidates[2..] && candidates[2..][1..] == [];
    if !Usable(row.cpf) then
      if Usable(row.cpf1) then row.cpf1
      else if Usable(row.raCpf) then
        assert FirstUsable(candidates[1..], row.cpf) == FirstUsable(candidates[2..], row.cpf);
        row.raCpf
      else row.cpf
    else row.cpf
  }

  predicate IsDigit(c: char) {
    '0' <= c <= '9'
  }

  predicate AllDigits(s: string) {
    forall i :: 0 <= i < |s| ==> IsDigit(s[i])
  }

  /** `str.replace(r'\D', '')`: the digit characters of `s`, in order. */
  function Digits(s: string): (d: string)
    ensures AllDigits(d) && |d| <= |s|
    ensures AllDigits(s) ==> d == s
  {
    if s == [] then []
    else (if IsDigit(s[0]) then [s[0]] else []) + Digits(s[1..])
  }

  /** Removing the non-digits of one character keeps it exactly when it is a digit. */
  lemma DigitsChar(c: char)
    ensures Digits([c]) == if IsDigit(c) then [c] else []
  {
    assert [c][1..] == [];
  }

  /** Removing the non-digits works character by character: it distributes over concatenation. */
  lemma {:induction false} DigitsAppend(a: string, b: string)
    ensures Digits(a + b) == Digits(a) + Digits(b)
  {
    if a == [] {
      assert a + b == b;
    } else {
      var ab := a + b;
      var h := if IsDigit(a[0]) then [a[0]] else [];
      assert ab[0] == a[0] && ab[1..] == a[1..] + b;
      calc {
        Digits(ab);
        h + Digits(a[1..] + b);
        { DigitsAppend(a[1..], b); }
        h + (Digits(a[1..]) + Digits(b));
        (h + Digits(a[1..])) + Digits(b);
      }
    }
  }

  function Zeros(n: nat): (z: string)
    ensures |z| == n && forall i :: 0 <= i < n ==> z[i] == '0'
  {
    seq(n, _ => '0')
  }

  /** `str.zfill(width)` on a string without a sign: pad with '0' on the left up to `width`. */
  function ZFill(s: string, width: nat): string {
    if |s| >= width then s else Zeros(width - |s|) + s
  }

  /** `s[-n:]`: the last `n` characters, or all of `s` when it is shorter. */
  function TakeLast(s: string, n: nat): string {
    if |s| <= n then s else s[|s| - n..]
  }

  /** `zfill(11)` then `[-11:]`: the fixed-width form of a digit string. */
  function Pad(d: string): string {
    TakeLast(ZFill(d, CpfLength), CpfLength)
  }

  /** The normalised CPF of a (filled) CPF cell. */
  function Normalise(v: Cell): (cpf: string)
    ensures |cpf| == CpfLength && AllDigits(cpf)
  {
    var d := Digits(v.GetOr(""));
    PadKeepsLastDigits(d);
    Pad(d)
  }

  /** The source's validity test: `^\d{11}$` matches and the value is not all zeros. */
  predicate IsValid(cpf: string) {
    |cpf| == CpfLength && AllDigits(cpf) && cpf != ZeroCpf
  }

  /** How many trailing digits of the input survive normalisation. */
  function Kept(d: string): nat {
    if |d| < CpfLength then |d| else CpfLength
  }

  /** The padded form ends with the last (at most eleven) characters of `d` and is '0' before them. */
  lemma PadKeepsLastDigits(d: string)
    ensures var cpf := Pad(d);
      && |cpf| == CpfLength
      && (forall i :: CpfLength - Kept(d) <= i < CpfLength ==> cpf[i] == d[|d| - CpfLength + i])
      && (forall i :: 0 <= i < CpfLength - Kept(d) ==> cpf[i] == '0')
  {
    if |d| >= CpfLength {
      assert Pad(d) == d[|d| - CpfLength..];
    } else {
      assert Pad(d) == Zeros(CpfLength - |d|) + d;
    }
  }

  /**
    A normalised CPF ends with the last (at most eleven) digits of the input, in order,
    and is '0' everywhere before them.
  */
  lemma NormaliseKeepsLastDigits(v: Cell)
    ensures var d := Digits(v.GetOr("")); var cpf := Normalise(v);
      && cpf[CpfLength - Kept(d)..] == d[|d| - Kept(d)..]
      && forall i :: 0 <= i < CpfLength - Kept(d) ==> cpf[i] == '0'
  {
    var d := Digits(v.GetOr(""));
    PadKeepsLastDigits(d);
    var cpf := Normalise(v);
    assert cpf == Pad(d);
  }

  /**
    A normalised CPF is valid exactly when it is not "00000000000", that is, exactly when
    one of the last eleven digits of the input is not '0'.
  */
  lemma NormaliseValidity(v: Cell)
    ensures IsValid(Normalise(v)) <==> Normalise(v) != ZeroCpf
    ensures var d := Digits(v.GetOr(""));
      IsValid(Normalise(v)) <==> exists i :: |d| - Kept(d) <= i < |d| && d[i] != '0'
  {
    var d := Digits(v.GetOr(""));
    assert Normalise(v) == Pad(d);
    PadZero(d);
  }

  /** The padded form of `d` is all zeros exactly when the characters of `d` that it keeps are all '0'. */
  lemma PadZero(d: string)
    ensures Pad(d) == ZeroCpf <==> forall i :: |d| - Kept(d) <= i < |d| ==> d[i] == '0'
  {
    var cpf := Pad(d);
    PadKeepsLastDigits(d);
    if cpf == ZeroCpf {
      forall i | |d| - Kept(d) <= i < |d| ensures d[i] == '0' {
        assert d[i] == cpf[i - |d| + CpfLength];
      }
    } else {
      var i :| 0 <= i < CpfLength && cpf[i] != ZeroCpf[i];
      assert d[i + |d| - CpfLength] == cpf[i];
    }
  }

  /** Normalising an already normalised CPF changes nothing. */
  lemma NormaliseIdempotent(v: Cell)
    ensures Normalise(Some(Normalise(v))) == Normalise(v)
  {
  }

  /** Worked values of the normalisation chain. */
  lemma NormaliseExamples()
    ensures Normalise(Some("123")) == "00000000123"
    ensures Normalise(None) == ZeroCpf
  {
    assert Digits("123") == "123";
    assert Pad("123") == Zeros(8) + "123";
    assert Digits("") == "";
    assert Pad("") == Zeros(11);
  }

  /** The placeholder normalises to the all-zero CPF, which is invalid. */
  lemma NormalisePlaceholder()
    ensures Normalise(Some(Placeholder)) == ZeroCpf && !IsValid(Normalise(Some(Placeholder)))
  {
    assert Digits(Placeholder[1..]) == "";
    assert Pad("") == Zeros(11);
  }

  /** A row after selection, normalisation and the added columns ('cpf_valido', 'Data da Resolucao'). */
  datatype NormRow = NormRow(cpf: string, valid: bool, id: Cell, requestDate: Cell, resolutionDate: Cell, ticketForm: Cell)

  /** One row of the selected table: filled and normalised CPF, its validity, the passthrough columns. */
  function NormaliseRow(raw: RawRow): (row: NormRow)
    ensures row.cpf == Normalise(FillCpf(raw))
    ensures |row.cpf| == CpfLength && AllDigits(row.cpf)
    ensures row.valid <==> row.cpf != ZeroCpf
    ensures row.valid <==> IsValid(row.cpf)
    ensures row.id == raw.id && row.requestDate == raw.requestDate && row.ticketForm == raw.ticketForm
    ensures row.resolutionDate == None
  {
    var cpf := Normalise(FillCpf(raw));
    NormaliseValidity(FillCpf(raw));
    NormRow(cpf, IsValid(cpf), raw.id, raw.requestDate, None, raw.ticketForm)
  }

  function NormaliseTable(raws: seq<RawRow>): seq<NormRow> {
    seq(|raws|, i requires 0 <= i < |raws| => NormaliseRow(raws[i]))
  }

  /** `loc[cpf_valido, 'CPF'].tolist()`: the CPFs of the valid rows, in table order. */
  function ValidCpfs(rows: seq<NormRow>): (cpfs: seq<string>)
    ensures |cpfs| <= |rows|
    ensures forall c :: c in cpfs <==> exists i :: 0 <= i < |rows| && rows[i].valid && rows[i].cpf == c
  {
    if rows == [] then []
    else
      var rest := ValidCpfs(rows[1..]);
      assert forall i :: 1 <= i < |rows| ==> rows[i] == rows[1..][i - 1];
      (if rows[0].valid then [rows[0].cpf] else []) + rest
  }

  /** The valid-CPF list is a filter: it distributes over concatenation, so table order is kept. */
  lemma {:induction false} ValidCpfsAppend(a: seq<NormRow>, b: seq<NormRow>)
    ensures ValidCpfs(a + b) == ValidCpfs(a) + ValidCpfs(b)
  {
    if a != [] {
      assert (a + b)[1..] == a[1..] + b;
      ValidCpfsAppend(a[1..], b);
    } else {
      assert a + b == b;
    }
  }

  /** Every CPF sent to lookup is valid; every valid row's CPF is sent; invalid rows stay in the table. */
  lemma ValidCpfsOfTable(raws: seq<RawRow>)
    ensures var rows := NormaliseTable(raws);
      && |rows| == |raws|
      && (forall c :: c in ValidCpfs(rows) ==> IsValid(c))
      && (forall i :: 0 <= i < |rows| ==> (rows[i].cpf in ValidCpfs(rows) <==> IsValid(rows[i].cpf)))
  {
    var rows := NormaliseTable(raws);
    forall i | 0 <= i < |rows| ensures rows[i].cpf in ValidCpfs(rows) <==> IsValid(rows[i].cpf) {
      if rows[i].cpf in ValidCpfs(rows) {
        var j :| 0 <= j < |rows| && rows[j].valid && rows[j].cpf == rows[i].cpf;
      }
    }
  }
}
