/** The ingress pipeline of the switch (p4_code/basic_switch/basic_rackblox.p4): two
    register arrays of GC bits and the match-action tables around them. */
module Switches {
  import opened Options

  /** The packet types, codes 0 to 9 in this order (p4_code/includes/headers.p4:17-26). */
  datatype Op =
    | Write | WriteReply | Read | ReadReply
    | Gc | GcFinish | GcRequest
    | GcSuccess | GcDeny | GcFinSuc

  type VssdId = nat
  type Port = nat
  type Ip = nat

  const REGISTER_LENGTH: nat := 512
  const RECIRC_PORT: Port := 324
  const CLIENT_PORT: Port := 292

  datatype Header = Header(op: Op, vssd: VssdId, dst: Ip)

  /** The entries the control plane installs. The four index tables give the register
      cell that a set or unset action touches for a vSSD. */
  datatype Tables = Tables(
    replica: map<VssdId, VssdId>,
    replicaIp: map<VssdId, Ip>,
    setReplica: map<VssdId, nat>,
    setDestination: map<VssdId, nat>,
    unsetReplica: map<VssdId, nat>,
    unsetDestination: map<VssdId, nat>,
    redirectPort: map<VssdId, Port>,
    replyPort: map<VssdId, Port>)
  {
    predicate CellsInBounds(v: VssdId) {
      && (v in replica ==> v < REGISTER_LENGTH && replica[v] < REGISTER_LENGTH)
      && (v in setReplica ==> setReplica[v] < REGISTER_LENGTH)
      && (v in setDestination ==> setDestination[v] < REGISTER_LENGTH)
      && (v in unsetReplica ==> unsetReplica[v] < REGISTER_LENGTH)
      && (v in unsetDestination ==> unsetDestination[v] < REGISTER_LENGTH)
    }

    /** Every register access the tables can cause is inside the arrays. */
    ghost predicate InBounds() {
      forall v {:trigger CellsInBounds(v)} :: CellsInBounds(v)
    }

    /** The vSSDs the rack knows. */
    function Ids(): set<VssdId> {
      replica.Keys
    }

    predicate Wired(v: VssdId) {
      if v in Ids() then
        && v in setReplica && v in setDestination && v in unsetReplica && v in unsetDestination
        && setReplica[v] == v && setDestination[v] == v && unsetReplica[v] == v && unsetDestination[v] == v
        && replica[v] in Ids() && v in replicaIp && v in redirectPort && redirectPort[v] != RECIRC_PORT
      else
        v !in setReplica && v !in setDestination && v !in unsetReplica && v !in unsetDestination
    }

    /** All tables know the same vSSDs and index the registers by vSSD id. */
    ghost predicate Consistent() {
      && InBounds()
      && forall v {:trigger Wired(v)} :: Wired(v)
    }

    predicate PairedWith(v: VssdId) {
      v in Ids() ==> replica[v] in Ids() && replica[v] != v && replica[replica[v]] == v
    }

    /** Replicas come in pairs. */
    ghost predicate Paired() {
      forall v {:trigger PairedWith(v)} :: PairedWith(v)
    }
  }

  datatype Regs = Regs(replica: seq<bool>, destination: seq<bool>) {
    predicate Valid() {
      |replica| == |destination| == REGISTER_LENGTH
    }
  }

  /** The registers at power-up. */
  function Cleared(): (r: Regs)
    ensures r.Valid()
  {
    var zeros := seq(REGISTER_LENGTH, _ => false);
    Regs(zeros, zeros)
  }

  datatype Out = Out(regs: Regs, hdr: Header, port: Option<Port>)

  /** A register write through an index table: a table miss does nothing. */
  function Put(cells: seq<bool>, index: map<VssdId, nat>, v: VssdId, bit: bool): (r: seq<bool>)
    requires v in index ==> index[v] < |cells|
    ensures |r| == |cells|
  {
    if v in index then cells[index[v] := bit] else cells
  }

  function Lookup(ports: map<VssdId, Port>, v: VssdId, miss: Option<Port>): Option<Port> {
    if v in ports then Some(ports[v]) else miss
  }

  /** What one pass through the apply block does to registers, header and egress port. */
  function Ingress(t: Tables, regs: Regs, hdr: Header, inPort: Port): (out: Out)
    requires t.InBounds() && regs.Valid()
    ensures out.regs.Valid()
  {
    var v := hdr.vssd;
    assert t.CellsInBounds(v);
    match hdr.op
    case Write => Out(regs, hdr, Lookup(t.redirectPort, v, None))
    case WriteReply => Out(regs, hdr, Lookup(t.replyPort, v, Some(CLIENT_PORT)))
    case ReadReply => Out(regs, hdr, Lookup(t.replyPort, v, Some(CLIENT_PORT)))
    case Read =>
      var r := if v in t.replica then t.replica[v] else 0;
      var gcVssd := v in t.replica && regs.replica[v];
      var gcReplica := r in t.replicaIp && r < REGISTER_LENGTH && regs.destination[r];
      var ip := if r in t.replicaIp then t.replicaIp[r] else 0;
      var h := if gcVssd && !gcReplica then hdr.(vssd := r, dst := ip) else hdr;
      Out(regs, h, Lookup(t.redirectPort, h.vssd, None))
    case GcRequest =>
      var r := if v in t.replica then t.replica[v] else 0;
      var gcReplica := r in t.replicaIp && r < REGISTER_LENGTH && regs.destination[r];
      if !gcReplica then Out(regs, hdr.(op := Gc), Some(RECIRC_PORT))
      else Out(regs, hdr.(op := GcDeny), Lookup(t.redirectPort, v, Some(inPort)))
    case Gc =>
      Out(Regs(Put(regs.replica, t.setReplica, v, true), Put(regs.destination, t.setDestination, v, true)),
          hdr.(op := GcSuccess), Lookup(t.redirectPort, v, Some(inPort)))
    case GcFinish =>
      Out(Regs(Put(regs.replica, t.unsetReplica, v, false), Put(regs.destination, t.unsetDestination, v, false)),
          hdr.(op := GcFinSuc), Lookup(t.redirectPort, v, Some(inPort)))
    case _ => Out(regs, hdr, None)
  }

  // ---------- the pipeline in its own form ----------

  class SwitchIngress {
    const tables: Tables
    const replicaRegisters: array<bool>
    const destinationRegisters: array<bool>

    ghost predicate Valid()
      reads this
    {
      && tables.InBounds()
      && replicaRegisters != destinationRegisters
      && replicaRegisters.Length == destinationRegisters.Length == REGISTER_LENGTH
    }

    ghost function Registers(): (r: Regs)
      reads this, replicaRegisters, destinationRegisters
      requires Valid()
      ensures r.Valid()
    {
      Regs(replicaRegisters[..], destinationRegisters[..])
    }

    constructor (tables: Tables)
      requires tables.InBounds()
      ensures Valid() && Registers() == Cleared() && this.tables == tables
      ensures fresh(replicaRegisters) && fresh(destinationRegisters)
    {
      this.tables := tables;
      replicaRegisters := new bool[REGISTER_LENGTH](_ => false);
      destinationRegisters := new bool[REGISTER_LENGTH](_ => false);
    }

    method Apply(hdr: Header, inPort: Port) returns (hdr': Header, port: Option<Port>)
      requires Valid()
      modifies replicaRegisters, destinationRegisters
      ensures Out(Registers(), hdr', port) == Ingress(tables, old(Registers()), hdr, inPort)
    {
      hdr' := hdr;
      port := None;
      assert tables.CellsInBounds(hdr.vssd);
      if hdr.op == Write {
        port := Lookup(tables.redirectPort, hdr.vssd, port);
      } else if hdr.op == WriteReply {
        port := Lookup(tables.replyPort, hdr.vssd, Some(CLIENT_PORT));
      } else if hdr.op == Read || hdr.op == GcRequest {
        var gcVssd, gcReplica, replicaId, rIp := false, false, 0, 0;
        if hdr.vssd in tables.replica {
          replicaId := tables.replica[hdr.vssd];
          gcVssd := replicaRegisters[hdr.vssd];
        }
        if replicaId in tables.replicaIp && replicaId < REGISTER_LENGTH {
          rIp := tables.replicaIp[replicaId];
          gcReplica := destinationRegisters[replicaId];
        }
        if hdr.op == Read {
          if gcVssd && !gcReplica {
            hdr' := hdr'.(vssd := replicaId, dst := rIp);
          }
          port := Lookup(tables.redirectPort, hdr'.vssd, port);
        } else if !gcReplica {
          hdr' := hdr'.(op := Gc);
          port := Some(RECIRC_PORT);
        } else {
          hdr' := hdr'.(op := GcDeny);
          port := Some(inPort);
          port := Lookup(tables.redirectPort, hdr'.vssd, port);
        }
      } else if hdr.op == ReadReply {
        port := Lookup(tables.replyPort, hdr.vssd, Some(CLIENT_PORT));
      } else if hdr.op == Gc {
        if hdr.vssd in tables.setReplica {
          replicaRegisters[tables.setReplica[hdr.vssd]] := true;
        }
        if hdr.vssd in tables.setDestination {
          destinationRegisters[tables.setDestination[hdr.vssd]] := true;
        }
        hdr' := hdr'.(op := GcSuccess);
        port := Some(inPort);
        port := Lookup(tables.redirectPort, hdr'.vssd, port);
      } else if hdr.op == GcFinish {
        if hdr.vssd in tables.unsetReplica {
          replicaRegisters[tables.unsetReplica[hdr.vssd]] := false;
        }
        if hdr.vssd in tables.unsetDestination {
          destinationRegisters[tables.unsetDestination[hdr.vssd]] := false;
        }
        hdr' := hdr'.(op := GcFinSuc);
        port := Some(inPort);
        port := Lookup(tables.redirectPort, hdr'.vssd, port);
      }
    }
  }

  // ---------- any history of packets ----------

  /** The registers after a sequence of packets, from power-up. */
  function After(t: Tables, hdrs: seq<Header>): (r: Regs)
    requires t.InBounds()
    ensures r.Valid()
  {
    if hdrs == [] then Cleared()
    else Ingress(t, After(t, hdrs[..|hdrs| - 1]), hdrs[|hdrs| - 1], 0).regs
  }

  /** Whether the last GC or GC-finish packet of v in the history was a GC packet. */
  predicate LastWasGc(hdrs: seq<Header>, v: VssdId) {
    if hdrs == [] then false
    else
      var h := hdrs[|hdrs| - 1];
      if h.vssd == v && h.op == Gc then true
      else if h.vssd == v && h.op == GcFinish then false
      else LastWasGc(hdrs[..|hdrs| - 1], v)
  }

  /** One packet writes the cells of its own vSSD only, both arrays alike. */
  lemma OnePacket(t: Tables, regs: Regs, hdr: Header, inPort: Port, v: VssdId)
    requires t.Consistent() && regs.Valid() && v in t.Ids() && v < REGISTER_LENGTH
    requires regs.replica[v] == regs.destination[v]
    ensures var r := Ingress(t, regs, hdr, inPort).regs;
            r.replica[v] == r.destination[v]
         == if hdr.vssd == v && hdr.op == Gc then true
            else if hdr.vssd == v && hdr.op == GcFinish then false
            else regs.replica[v]
  {
    assert t.Wired(hdr.vssd) && t.CellsInBounds(hdr.vssd) && t.CellsInBounds(v);
  }

  /** Both register arrays always hold the effect of the vSSD's last GC or finish. */
  lemma {:induction false} RegistersTrackLastGc(t: Tables, hdrs: seq<Header>, v: VssdId)
    requires t.Consistent() && v in t.Ids()
    ensures v < REGISTER_LENGTH
    ensures After(t, hdrs).replica[v] == After(t, hdrs).destination[v] == LastWasGc(hdrs, v)
  {
    assert t.CellsInBounds(v);
    if hdrs != [] {
      RegistersTrackLastGc(t, hdrs[..|hdrs| - 1], v);
      OnePacket(t, After(t, hdrs[..|hdrs| - 1]), hdrs[|hdrs| - 1], 0, v);
    }
  }

  /** A read goes to its target or to the target's replica, and to the replica just when
      only the target's bit is set; it meets a vSSD whose bit is set only when both are. */
  lemma ReadAvoidsCollector(t: Tables, hdrs: seq<Header>, read: Header, inPort: Port, out: Out)
    requires t.Consistent() && read.op == Read && read.vssd in t.Ids()
    requires out == Ingress(t, After(t, hdrs), read, inPort)
    ensures var v := read.vssd;
            var r := t.replica[v];
            && out.regs == After(t, hdrs)
            && out.hdr.vssd == (if LastWasGc(hdrs, v) && !LastWasGc(hdrs, r) then r else v)
            && (LastWasGc(hdrs, out.hdr.vssd) <==> LastWasGc(hdrs, v) && LastWasGc(hdrs, r))
            && out.hdr.dst == (if LastWasGc(hdrs, v) && !LastWasGc(hdrs, r) && r in t.replicaIp
                               then t.replicaIp[r] else read.dst)
            && out.port == Lookup(t.redirectPort, out.hdr.vssd, None) && out.port.Some?
  {
    var v := read.vssd;
    assert t.Wired(v) && t.CellsInBounds(v) && t.Wired(t.replica[v]);
    RegistersTrackLastGc(t, hdrs, v);
    RegistersTrackLastGc(t, hdrs, t.replica[v]);
  }

  /** The answers a vSSD can get to a GC packet. */
  predicate IsAnswer(op: Op) {
    op == GcSuccess || op == GcDeny || op == GcFinSuc
  }

  /** Every GC, request and finish packet is answered with exactly one packet for the
      same vSSD, on the vSSD's own port: at once, or (a granted request) after exactly one
      recirculation. The request is denied if and only if the replica's last packet of the
      kind was a GC. */
  lemma AnsweredOnce(t: Tables, hdrs: seq<Header>, hdr: Header, inPort: Port, out: Out, again: Out)
    requires t.Consistent() && hdr.vssd in t.Ids()
    requires hdr.op == Gc || hdr.op == GcFinish || hdr.op == GcRequest
    requires out == Ingress(t, After(t, hdrs), hdr, inPort)
    requires again == Ingress(t, out.regs, out.hdr, RECIRC_PORT)
    ensures out.hdr.vssd == hdr.vssd
    ensures out.port == Some(RECIRC_PORT) <==> !IsAnswer(out.hdr.op)
    ensures out.port == Some(RECIRC_PORT) <==> hdr.op == GcRequest && !LastWasGc(hdrs, t.replica[hdr.vssd])
    ensures hdr.op == Gc ==> out.hdr.op == GcSuccess
    ensures hdr.op == GcFinish ==> out.hdr.op == GcFinSuc
    ensures hdr.op == GcRequest && IsAnswer(out.hdr.op) ==> out.hdr.op == GcDeny
    ensures hdr.vssd in t.redirectPort && t.redirectPort[hdr.vssd] != RECIRC_PORT
    ensures IsAnswer(out.hdr.op) ==> out.port == Some(t.redirectPort[hdr.vssd]) && out.hdr.dst == hdr.dst
    ensures out.port == Some(RECIRC_PORT) ==>
              && again.hdr == hdr.(op := GcSuccess) && again.port == Some(t.redirectPort[hdr.vssd])
              && again.regs == After(t, hdrs + [hdr.(op := Gc)])
  {
    var v := hdr.vssd;
    assert t.Wired(v) && t.CellsInBounds(v) && t.Wired(t.replica[v]);
    RegistersTrackLastGc(t, hdrs, t.replica[v]);
    var h := hdrs + [hdr.(op := Gc)];
    assert h[..|h| - 1] == hdrs;
  }

  /** A write goes to the port of its vSSD and a reply to the reply port of its vSSD, the
      client's when none is installed; a GC answer is not forwarded. None of them is changed
      and none touches a register. */
  lemma DataPassesThrough(t: Tables, regs: Regs, hdr: Header, inPort: Port)
    requires t.Consistent() && regs.Valid() && hdr.vssd in t.Ids()
    ensures var out := Ingress(t, regs, hdr, inPort);
            && (hdr.op == Write ==>
                  hdr.vssd in t.redirectPort && out == Out(regs, hdr, Some(t.redirectPort[hdr.vssd])))
            && (hdr.op == WriteReply || hdr.op == ReadReply ==>
                  out == Out(regs, hdr, Some(if hdr.vssd in t.replyPort then t.replyPort[hdr.vssd] else CLIENT_PORT)))
            && (IsAnswer(hdr.op) ==> out == Out(regs, hdr, None))
  {
    assert t.Wired(hdr.vssd);
  }

  /** A packet that names no vSSD of the rack leaves every register as it is, and what answer
      it gets goes back where it came from when no port is installed for it. */
  lemma UnknownVssdChangesNothing(t: Tables, regs: Regs, hdr: Header, inPort: Port)
    requires t.Consistent() && regs.Valid() && hdr.vssd !in t.Ids() && hdr.vssd !in t.redirectPort
    ensures var out := Ingress(t, regs, hdr, inPort);
            && out.regs == regs && out.hdr.vssd == hdr.vssd && out.hdr.dst == hdr.dst
            && (IsAnswer(out.hdr.op) && !IsAnswer(hdr.op) ==> out.port == Some(inPort))
            && (hdr.op == Write || hdr.op == Read || IsAnswer(hdr.op) ==> out == Out(regs, hdr, None))
  {
    assert t.Wired(hdr.vssd);
  }
}
