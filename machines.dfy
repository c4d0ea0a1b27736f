/** The appliance client: one raw entry of the provider's `MachineStates`
    array, the normalised machine record built from it, and the fetch that
    either aborts on a non-200 HTTP status or normalises every entry. */
module Machines {
  import opened Text

  datatype Kind = Dryer | Washer

  /** The `type` string the record carries and the messages print. */
  function KindName(k: Kind): string
  {
    match k
    case Dryer => "Dryer"
    case Washer => "Washer"
  }

  /** One element of the provider's `MachineStates` array; the JSON
      values of the two flags are taken by their truthiness. */
  datatype RawEntry = RawEntry(
    machineSymbol: bool,
    machineColor: bool,
    text1: string,
    unitName: string)

  /** The normalised machine record. */
  datatype Machine = Machine(
    kind: Kind,
    inUse: bool,
    status: string,
    unitName: string,
    id: string)

  /** The decoded body of one HTTP response: its status code and the
      entries of its `MachineStates` array. */
  datatype Response = Response(status: int, entries: seq<RawEntry>)

  /** A fetch either yields the records or ends the process with an exit code. */
  datatype FetchResult = Fetched(machines: seq<Machine>) | Aborted(code: nat)

  /** Exit code of the process when the provider answers with a status other than 200. */
  const WrongStatusExit: nat := 1

  const IdPattern: string := "Machine "

  /** The machine id: the unit name with every non-overlapping occurrence of
      `"Machine "` removed in one left-to-right pass. */
  function MachineId(unitName: string): string
  {
    Replace(unitName, IdPattern, "")
  }

  /** Maps one raw entry to a machine record. */
  function Normalize(e: RawEntry): (m: Machine)
    ensures m.kind == Dryer <==> e.machineSymbol
    ensures m.kind == Washer <==> !e.machineSymbol
    ensures m.inUse <==> !e.machineColor
    ensures m.status == e.text1 && m.unitName == e.unitName
    ensures m.id == MachineId(e.unitName)
  {
    Machine(
      if e.machineSymbol then Dryer else Washer,
      !e.machineColor,
      e.text1,
      e.unitName,
      MachineId(e.unitName))
  }

  /** The raw entry a record was built from, read back off the record. */
  function Raw(m: Machine): RawEntry
  {
    RawEntry(m.kind == Dryer, !m.inUse, m.status, m.unitName)
  }

  /** Normalisation loses nothing of the raw entry: it can be read back. */
  lemma NormalizeLossless(e: RawEntry)
    ensures Raw(Normalize(e)) == e
  {
  }

  /** A unit name made of `"Machine "` and a rest free of that pattern has
      the rest as its id. */
  lemma IdOfPrefixedName(s: string)
    requires !Occurs(s, IdPattern)
    ensures MachineId(IdPattern + s) == s
  {
    StripLeading(IdPattern, s);
  }

  /** A unit name without `"Machine "` is its own id; one with it is not. */
  lemma IdOfPlainName(unitName: string)
    ensures MachineId(unitName) == unitName <==> !Occurs(unitName, IdPattern)
  {
    RemoveChanges(unitName, IdPattern);
  }

  /** A character other than the pattern's first is copied through. */
  lemma CopyChar(c: char, x: string)
    requires c != IdPattern[0]
    ensures MachineId([c] + x) == [c] + MachineId(x)
  {
    assert ([c] + x)[0] == c;
    assert ([c] + x)[1..] == x;
  }

  /** A stretch without the pattern's first character is copied through. */
  lemma {:induction false} CopyPlain(p: string, x: string)
    requires IdPattern[0] !in p
    ensures MachineId(p + x) == p + MachineId(x)
    decreases |p|
  {
    if p != [] {
      assert p[0] in p;
      HeadTail(p, x);
      CopyChar(p[0], p[1..] + x);
      CopyPlain(p[1..], x);
      HeadTail(p, MachineId(x));
    } else {
      assert p + x == x;
    }
  }

  /** The inner occurrence of the spliced name below. */
  lemma SplicedNameInner()
    ensures MachineId("Machine ine ") == "ine "
  {
    assert !Occurs("ine ", IdPattern);
    ReplaceAbsent("ine ", IdPattern, "");
    ReplaceLeading(IdPattern, "ine ", "");
  }

  /** The pass over the spliced name from its second character on. */
  lemma SplicedNameTail()
    ensures MachineId("achMachine ine ") == "achine "
  {
    SplicedNameInner();
    CopyPlain("ach", "Machine ine ");
    assert "ach" + "Machine ine " == "achMachine ine ";
  }

  /** The first pass over a name in which the pattern is spliced into
      itself: removing the inner occurrence joins the halves of the outer. */
  lemma SplicedNameFirstPass()
    ensures MachineId("MachMachine ine ") == IdPattern
  {
    SplicedNameTail();
    var w := "MachMachine ine ";
    assert !(IdPattern <= w) by { assert IdPattern[4] != w[4]; }
    assert w[1..] == "achMachine ine ";
  }

  /** The id step is not idempotent: the first pass can join two halves of
      the pattern into a new occurrence, which a second pass removes. */
  lemma IdNotIdempotent()
    ensures MachineId("MachMachine ine ") == "Machine "
    ensures MachineId(MachineId("MachMachine ine ")) == ""
  {
    SplicedNameFirstPass();
    ReplaceLeading(IdPattern, [], "");
    assert IdPattern + [] == IdPattern;
  }

  /** Every record is the normalisation of the entry at the same position. */
  function NormalizeAll(entries: seq<RawEntry>): (ms: seq<Machine>)
    ensures |ms| == |entries|
    ensures forall i :: 0 <= i < |entries| ==> ms[i] == Normalize(entries[i])
  {
    seq(|entries|, i requires 0 <= i < |entries| => Normalize(entries[i]))
  }

  /** What one fetch gives: an abort with exit code 1 unless the status is
      200, and otherwise one record per entry, in order. */
  function Fetch(resp: Response): (r: FetchResult)
    ensures r.Aborted? <==> resp.status != 200
    ensures r.Aborted? ==> r.code == WrongStatusExit
    ensures r.Fetched? ==> r.machines == NormalizeAll(resp.entries)
  {
    if resp.status != 200 then Aborted(WrongStatusExit)
    else Fetched(NormalizeAll(resp.entries))
  }

  /** The fetch as the program runs it: check the status, then build the
      result list entry by entry. */
  method GetMachines(resp: Response) returns (r: FetchResult)
    ensures r == Fetch(resp)
    ensures r.Fetched? ==> |r.machines| == |resp.entries|
    ensures r.Fetched? ==> forall i :: 0 <= i < |resp.entries| ==> r.machines[i] == Normalize(resp.entries[i])
  {
    if resp.status != 200 {
      return Aborted(WrongStatusExit);
    }
    var result: seq<Machine> := [];
    for i := 0 to |resp.entries|
      invariant |result| == i
      invariant forall k :: 0 <= k < i ==> result[k] == Normalize(resp.entries[k])
    {
      var e := resp.entries[i];
      var machine := Machine(
        if e.machineSymbol then Dryer else Washer,
        !e.machineColor,
        e.text1,
        e.unitName,
        Replace(e.unitName, IdPattern, ""));
      result := result + [machine];
    }
    return Fetched(result);
  }
}
