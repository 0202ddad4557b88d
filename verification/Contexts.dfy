/** The context objects the AMF index tables point to.
    The C++ code shares them through pointers and assigns their fields in place; here each object
    holds one record of the fields that the tables and the NGAP procedures use. */
module Contexts {

  datatype Option<+T> = None | Some(value: T)

  /** std::map::erase */
  function Without<K(==,!new), V>(m: map<K, V>, key: K): (r: map<K, V>)
    ensures key !in r && r.Keys == m.Keys - {key}
    ensures forall k | k != key :: k in r <==> k in m
    ensures forall k | k in r :: r[k] == m[k]
  {
    m - {key}
  }

  type RanId = nat
  type GnbId = nat
  type AmfId = nat
  type Assoc = int
  /** A SUPI; the tables only compare it, so a number stands for the string. */
  type Supi = nat

  datatype ReleaseCause = NoCause | SuccessfulHandover
  datatype UeState = NotConnected | Connected | InHandover
  datatype GnbState = Unready | Ready | Resetting | ShuttingDown
  datatype CmState = CmIdle | CmConnected

  /** ue_ngap_context. An AMF id of None stands for INVALID_AMF_UE_NGAP_ID. */
  datatype Ngap = Ngap(ranId: RanId, amfId: Option<AmfId>, assoc: Assoc, state: UeState,
                       targetRanId: RanId, targetAssoc: Assoc,
                       cause: ReleaseCause, releaseGnb: Assoc)

  /** ue_context */
  datatype Ue = Ue(ranId: RanId, amfId: AmfId, gnbId: GnbId)

  /** The identifiers and the connection state of a nas_context. */
  datatype Nas = Nas(ranId: RanId, amfId: AmfId, supi: Supi, cm: CmState)

  /** gnb_context */
  datatype Gnb = Gnb(id: GnbId, state: GnbState)

  class NgapContext {
    var rec: Ngap
    constructor (rec: Ngap)
      ensures this.rec == rec
    {
      this.rec := rec;
    }
  }

  class UeContext {
    var rec: Ue
    constructor (rec: Ue)
      ensures this.rec == rec
    {
      this.rec := rec;
    }
  }

  class NasRecord {
    var rec: Nas
    constructor (rec: Nas)
      ensures this.rec == rec
    {
      this.rec := rec;
    }
  }

  class GnbContext {
    var rec: Gnb
    constructor (rec: Gnb)
      ensures this.rec == rec
    {
      this.rec := rec;
    }
  }
}
