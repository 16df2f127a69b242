// The regulator's image: the loops of a scan that take the field in, publish it to the masters
// and bring the operator's forcing back.
module RegulatorImage {
  import opened CommonTypes
  import opened ModbusMap
  import opened SlaveBlocks
  import opened SlaveRegisters
  import opened Codec
  import opened MasterDecode
  import A = Alarms
  import G = AlarmsWidget

  // What the field driver gives for a variable, and what is handed to it.
  datatype Sample = Sample(val: Float32, q: QuState, time: bv64)
  datatype FieldWrite = FieldWrite(addr: IOAddr, val: Float32)

  // The slave keeps a record for the variable.
  predicate Kept(slave: ModbusSlaveDrv, v: IOVar)
    reads slave
  {
    && v.id in slave.fieldVars && SlaveTakes(slave.numRO, slave.numIO, slave.fieldVars[v.id].channel)
    && slave.state != UnInit
  }

  function RecordOf(slave: ModbusSlaveDrv, v: IOVar): nat
    reads slave
    requires v.id in slave.fieldVars
  {
    SlaveIndex(slave.numRO, slave.fieldVars[v.id].channel)
  }

  // The variables are objects of their own, with records of their own.
  ghost predicate Separate(slave: ModbusSlaveDrv, vars: seq<IOVar?>)
    reads slave
  {
    forall i, j | 0 <= i < j < |vars| && vars[i] != null && vars[j] != null ::
      && vars[i] != vars[j]
      && (Kept(slave, vars[i]) && Kept(slave, vars[j]) ==> RecordOf(slave, vars[i]) != RecordOf(slave, vars[j]))
  }

  // What a table holds for the variable.
  ghost function Entry(slave: ModbusSlaveDrv, records: map<nat, Rec>, v: IOVar): Option<Rec>
    reads slave
  {
    if Kept(slave, v) && RecordOf(slave, v) in records then Some(records[RecordOf(slave, v)]) else None
  }

  lemma KeptHasEntry(slave: ModbusSlaveDrv, v: IOVar)
    requires slave.Valid() && Kept(slave, v)
    ensures RecordOf(slave, v) in slave.Records()
  {
    hide At;
  }

  // A table that says what the variable holds, and whose forcing the variable has taken.
  ghost predicate Published(slave: ModbusSlaveDrv, before: map<nat, Rec>, records: map<nat, Rec>, v: IOVar)
    reads v, slave
  {
    Kept(slave, v) ==>
      && Entry(slave, before, v).Some?
      && v.forced == Entry(slave, before, v).value.forced && v.forcedVal == Entry(slave, before, v).value.forcedVal
      && Entry(slave, records, v) == Some(Rec(v.trueVal, v.forcedVal, v.forced, v.QState(), v.time))
  }

  ghost predicate Sampled(sample: IOAddr -> Option<Sample>, v: IOVar)
    reads v
  {
    sample(v.addr).Some? ==>
      && v.trueVal == sample(v.addr).value.val && v.time == sample(v.addr).value.time
      && v.q == sample(v.addr).value.q
  }

  // What the variable holds of its own.
  ghost function Own(v: IOVar): (Float32, QuState, bv64)
    reads v
  {
    (v.trueVal, v.q, v.time)
  }

  ghost function Objects(vars: seq<IOVar?>): set<IOVar> {
    set i | 0 <= i < |vars| && vars[i] != null :: vars[i]
  }

  // One table differs from another only in the record of a variable, if it has one.
  ghost predicate OnlyEntry(slave: ModbusSlaveDrv, before: map<nat, Rec>, after: map<nat, Rec>, v: IOVar)
    reads slave
  {
    if Kept(slave, v) then RecordOf(slave, v) in after
      && after == before[RecordOf(slave, v) := after[RecordOf(slave, v)]]
    else after == before
  }

  class IOImage {
    const slave: ModbusSlaveDrv
    const fieldIn: seq<IOVar?>
    const fieldOut: seq<IOVar?>

    constructor (slave: ModbusSlaveDrv, fieldIn: seq<IOVar?>, fieldOut: seq<IOVar?>)
      ensures this.slave == slave && this.fieldIn == fieldIn && this.fieldOut == fieldOut
    {
      this.slave, this.fieldIn, this.fieldOut := slave, fieldIn, fieldOut;
    }

    method PublishOne(v: IOVar)
      requires slave.Valid()
      modifies v, slave.registers, slave.inputBits, slave.inputRegisters
      ensures slave.Valid() && slave.ROWords() == old(slave.ROWords())
      ensures Published(slave, old(slave.Records()), slave.Records(), v)
      ensures OnlyEntry(slave, old(slave.Records()), slave.Records(), v)
      ensures v.trueVal == old(v.trueVal) && v.time == old(v.time) && v.q == old(v.q)
    {
      hide Table, Words, SlaveIndex, SlaveTakes;
      if Kept(slave, v) { KeptHasEntry(slave, v); }
      var ok := slave.UpdateFieldVar(v);
    }

    method TakeIn(sample: IOAddr -> Option<Sample>, v: IOVar)
      requires slave.Valid()
      modifies v, slave.registers, slave.inputBits, slave.inputRegisters
      ensures slave.Valid() && slave.ROWords() == old(slave.ROWords())
      ensures Published(slave, old(slave.Records()), slave.Records(), v)
      ensures OnlyEntry(slave, old(slave.Records()), slave.Records(), v)
      ensures Sampled(sample, v) && (sample(v.addr).None? ==> Own(v) == old(Own(v)))
    {
      hide Published, OnlyEntry, Table, Words;
      var s := sample(v.addr);
      if s.Some? {
        v.trueVal, v.q, v.time := s.value.val, s.value.q, s.value.time;
      }
      PublishOne(v);
    }

    // The field inputs of updateInputs: each is sampled and published, and takes the forcing the
    // masters had left in its record.
    method UpdateFieldInputs(sample: IOAddr -> Option<Sample>)
      requires slave.Valid() && Separate(slave, fieldIn)
      modifies Objects(fieldIn), slave.registers, slave.inputBits, slave.inputRegisters
      ensures slave.Valid() && slave.ROWords() == old(slave.ROWords())
      ensures forall i | 0 <= i < |fieldIn| && fieldIn[i] != null ::
                Published(slave, old(slave.Records()), slave.Records(), fieldIn[i]) && Sampled(sample, fieldIn[i])
      ensures forall i | 0 <= i < |fieldIn| && fieldIn[i] != null && sample(fieldIn[i].addr).None? ::
                Own(fieldIn[i]) == old(Own(fieldIn[i]))
    {
      hide Table, Words, SlaveIndex, SlaveTakes;
      ghost var before := slave.Records();
      for i := 0 to |fieldIn|
        invariant slave.Valid() && slave.ROWords() == old(slave.ROWords())
        invariant forall j | 0 <= j < i && fieldIn[j] != null ::
                    Published(slave, before, slave.Records(), fieldIn[j]) && Sampled(sample, fieldIn[j])
        invariant forall j | 0 <= j < |fieldIn| && fieldIn[j] != null && (j >= i || sample(fieldIn[j].addr).None?) ::
                    Own(fieldIn[j]) == old(Own(fieldIn[j]))
        invariant forall j | i <= j < |fieldIn| && fieldIn[j] != null ::
                    Entry(slave, slave.Records(), fieldIn[j]) == Entry(slave, before, fieldIn[j])
      {
        if fieldIn[i] == null { continue; }
        TakeIn(sample, fieldIn[i]);
      }
    }

    // What goes out for a variable: the forced value while its record was forced, its own otherwise.
    ghost predicate GoesOut(before: map<nat, Rec>, v: IOVar, w: Option<FieldWrite>)
      reads v, slave
    {
      && w.Some? && w.value.addr == v.addr
      && (Kept(slave, v) ==>
            var e := Entry(slave, before, v);
            e.Some? && w.value.val == if e.value.forced then e.value.forcedVal else v.trueVal)
      && (!Kept(slave, v) ==> w.value.val == v.CurrentVal())
    }

    // The field outputs of updateOutputs: each is published, takes the forcing and is written to
    // the field in the same scan.
    method UpdateFieldOutputs() returns (written: seq<Option<FieldWrite>>)
      requires slave.Valid() && Separate(slave, fieldOut)
      modifies Objects(fieldOut), slave.registers, slave.inputBits, slave.inputRegisters
      ensures slave.Valid() && slave.ROWords() == old(slave.ROWords())
      ensures |written| == |fieldOut|
      ensures forall i | 0 <= i < |fieldOut| && fieldOut[i] != null ::
                Published(slave, old(slave.Records()), slave.Records(), fieldOut[i])
                && GoesOut(old(slave.Records()), fieldOut[i], written[i])
      ensures forall i | 0 <= i < |fieldOut| && fieldOut[i] != null :: Own(fieldOut[i]) == old(Own(fieldOut[i]))
    {
      hide Table, Words, SlaveIndex, SlaveTakes;
      ghost var before := slave.Records();
      written := [];
      for i := 0 to |fieldOut|
        invariant slave.Valid() && slave.ROWords() == old(slave.ROWords()) && |written| == i
        invariant forall j | 0 <= j < i && fieldOut[j] != null ::
                    Published(slave, before, slave.Records(), fieldOut[j]) && GoesOut(before, fieldOut[j], written[j])
        invariant forall j | 0 <= j < |fieldOut| && fieldOut[j] != null :: Own(fieldOut[j]) == old(Own(fieldOut[j]))
        invariant forall j | i <= j < |fieldOut| && fieldOut[j] != null ::
                    Entry(slave, slave.Records(), fieldOut[j]) == Entry(slave, before, fieldOut[j])
      {
        if fieldOut[i] == null {
          written := written + [None];
          continue;
        }
        PublishOne(fieldOut[i]);
        written := written + [Some(FieldWrite(fieldOut[i].addr, fieldOut[i].CurrentVal()))];
      }
    }

    // The words of updateOutputs: word i goes to channel first + i.
    method PublishWords(words: seq<bv32>, first: nat)
      requires slave.Valid() && slave.state != UnInit && 1 <= first && first + |words| - 1 <= slave.numRO
        && first + |words| <= 256
      modifies slave.inputRegisters
      ensures slave.Valid() && slave.Records() == old(slave.Records())
      ensures forall n: nat | first <= n < first + |words| ::
                n in slave.ROWords() && slave.ROWords()[n] == words[n - first]
      ensures forall n | n in old(slave.ROWords()) && !(first <= n < first + |words|) ::
                n in slave.ROWords() && slave.ROWords()[n] == old(slave.ROWords())[n]
    {
      hide Table, Words;
      for i := 0 to |words|
        invariant slave.Valid() && slave.Records() == old(slave.Records())
        invariant forall n: nat | first <= n < first + i ::
                    n in slave.ROWords() && slave.ROWords()[n] == words[n - first]
        invariant forall n | n in old(slave.ROWords()) && !(first <= n < first + i) ::
                    n in slave.ROWords() && slave.ROWords()[n] == old(slave.ROWords())[n]
      {
        var ok := slave.WriteRO(words[i], first + i);
      }
    }
  }

  // ---- the alarm words, from the manager to the HMI's report

  // The word the master reads at a channel is the one published there.
  lemma WordIsRead(sh: Shape, b: Block, channel: Byte, regs: seq<Register>)
    requires Fits(sh, b) && 1 <= channel <= sh.numRO
    requires Some(regs) == ReadBlock(b.inputRegisters, IRADDRESS, IntAddr(channel), 2)
    ensures channel as nat in Words(sh, b) && |regs| == 2 && DecodeInt(sh.little, regs) == Words(sh, b)[channel as nat]
  {
    hide DecodeInt;
    MasterReadsWord(sh, b, channel);
  }

  // The master's reads of the first words of a block.
  method ReadWords(sh: Shape, b: Block, count: nat) returns (words: seq<bv32>)
    requires Fits(sh, b) && count <= sh.numRO && count < 256
    ensures |words| == count && forall n: nat | 1 <= n <= count :: n in Words(sh, b) && words[n - 1] == Words(sh, b)[n]
  {
    hide Words, Fits, DecodeInt;
    words := [];
    for i := 0 to count
      invariant |words| == i && forall n: nat | 1 <= n <= i :: n in Words(sh, b) && words[n - 1] == Words(sh, b)[n]
    {
      var regs := ReadBlock(b.inputRegisters, IRADDRESS, IntAddr(i + 1), 2);
      MasterReadsWord(sh, b, i + 1);
      WordIsRead(sh, b, i + 1, regs.value);
      var word := GetInt(sh.little, regs.value);
      words := words + [word];
    }
  }

  // From the alarm manager through the regulator's scan and the master's reads: the alarms listed
  // in the HMI's report are those set.
  method AlarmsReachTheReport(image: IOImage, manager: A.AlarmManager) returns (report: seq<nat>)
    requires image.slave.Valid() && image.slave.state != UnInit && manager.Valid()
    requires A.NumWords(|manager.levels|) <= image.slave.numRO && A.NumWords(|manager.levels|) < 256
    modifies image.slave.inputRegisters
    ensures forall e: nat :: e in report <==> e in A.Active(manager.logicErrors[..], |manager.levels|)
  {
    hide A.Active, A.IsAlarmSet, Table, Words, G.Report;
    var words, n := manager.logicErrors[..], |manager.levels|;
    image.PublishWords(words, 1);
    var delivered := ReadWords(image.slave.TheShape(), image.slave.TheBlock(), |words|);
    forall k | 0 <= k < |words| ensures delivered[k] == words[k] {
      var c: nat := k + 1;
      assert c in image.slave.ROWords() && image.slave.ROWords()[c] == words[c - 1];
    }
    assert delivered == words;
    G.ReportExactly(words, n, 0);
    ActiveIs(words, n);
    report := G.Report(delivered, n, 0);
  }

  lemma ActiveIs(words: seq<bv32>, n: nat)
    requires |words| == A.NumWords(n)
    ensures forall e: nat :: e in A.Active(words, n) <==> A.IsAlarmSet(words, n, e)
  {}
}
