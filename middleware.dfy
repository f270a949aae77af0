/** The Middleware object: its fields, updated in place by the socket
    callbacks and by the scheduler loop. Each method is proved to follow the
    corresponding transition function of ObuSpec. */
module Obu {
  import opened Messages
  import opened Proximity
  import opened ObuSpec

  class Middleware {
    const catalog: map<int, MsgKind>    // MSG_TYPE: type code to message class
    const updateInterval: real          // MiddleWareParam.update_interval, seconds

    var egoL2id: int
    var egoBsm: Record
    var egoBsmLight: Record
    var cimSender: int
    var vehicleData: Record
    var commState: bool
    var receiver: Option<int>
    var queue: seq<Outbound>
    var proximityBsm: map<int, Received>
    var proximityRsu: map<MsgKind, Received>

    /** The abstract value of the object. */
    ghost function State(): ObuState
      reads this
    {
      ObuState(egoL2id, egoBsm, egoBsmLight, cimSender, vehicleData, commState,
               receiver, queue, proximityBsm, proximityRsu)
    }

    /** `__init__` and `__init_data`; the arguments are the default attribute
        values of BsmData(), BsmLightData() and VehicleData(). */
    constructor (catalog: map<int, MsgKind>, updateInterval: real,
                 bsmDefaults: Record, lightDefaults: Record, vehicleDefaults: Record)
      ensures this.catalog == catalog && this.updateInterval == updateInterval
      ensures State() == Initial(bsmDefaults, lightDefaults, vehicleDefaults)
    {
      this.catalog := catalog;
      this.updateInterval := updateInterval;
      egoL2id := 0;
      egoBsm := bsmDefaults;
      egoBsmLight := lightDefaults;
      cimSender := 0;
      vehicleData := vehicleDefaults;
      commState := false;
      receiver := None;
      queue := [];
      proximityBsm := map[];
      proximityRsu := map[];
    }

    /** `set_obu_data`: `msgType` is the header's type code (None when
        unpack_header raised), `decoded` the payload decoded by the catalog
        class (None when unpack_data raised). Returns the exception raised, if any. */
    method SetObuData(msgType: Option<int>, decoded: Option<Received>) returns (failure: Option<Error>)
      modifies this
      ensures (State(), failure) == Deliver(old(State()), catalog, msgType, decoded)
    {
      if msgType.None? {
        return Some(MalformedHeader);
      }
      if msgType.value !in catalog {
        return Some(UnknownMessageType);
      }
      var kind := catalog[msgType.value];
      if decoded.None? {
        return Some(TruncatedPayload);
      }
      var obuData := decoded.value;
      if kind == DnmRequest {
        receiver := Some(obuData.sender);
        queue := queue + [DnmResponseMsg(egoL2id, obuData.sender)];
        proximityRsu := proximityRsu[DnmRequest := obuData];
      } else if kind == L2idResponse {
        egoL2id := obuData.l2id;
        egoBsm := egoBsm[L2idField := IntVal(egoL2id)];
        cimSender := egoL2id;
        proximityRsu := proximityRsu[L2idResponse := obuData];
      } else {
        // The source's test here is always true; the DMM_NOIT and EDM_NOIT
        // branches that follow it are unreachable.
        proximityBsm := proximityBsm[obuData.l2id := obuData];
      }
      return None;
    }

    /** `set_vehicle_data`: `connected` is the vehicle link's is_connected.
        Returns the exception raised, if any; update_data's result is discarded. */
    method SetVehicleData(data: Arg<Record>, connected: bool) returns (failure: Option<Error>)
      modifies this
      ensures (State(), failure) == ObuSpec.SetVehicleData(old(State()), data, connected)
    {
      if data.OtherArg? {
        return Some(InvalidInput);
      }
      vehicleData := vehicleData + data.dict;
      var _ := UpdateData(connected);
      return None;
    }

    /** `update_data`. */
    method UpdateData(connected: bool) returns (ok: bool)
      modifies this
      ensures (State(), ok) == ObuSpec.UpdateData(old(State()), connected)
    {
      if !connected {
        return false;
      }
      egoBsm := egoBsm + vehicleData;
      if TurnSignalActive(vehicleData) {
        egoBsmLight := egoBsmLight + vehicleData;
      }
      return true;
    }

    /** `check_module_state`: ready exactly when an identity is assigned. */
    method CheckModuleState() returns (ready: bool)
      modifies this
      ensures ready == Assigned(old(State()))
      ensures State() == GateCheck(old(State()))
    {
      if egoL2id == 0 {
        queue := queue + [L2idRequestMsg];
        commState := false;
        return false;
      }
      return true;
    }

    /** One pass of the loop in `process`. `bsmNow` and `rsuNow` are the clock
        readings taken by the two sweeps, `dt` the time elapsed since the
        previous tick's start, read before the pacing sleep. */
    method Tick(bsmNow: real, rsuNow: real, dt: real) returns (outcome: TickOutcome)
      modifies this
      ensures (State(), outcome) == TickStep(old(State()), updateInterval, bsmNow, rsuNow, dt)
    {
      var ready := CheckModuleState();
      if !ready {
        return Backoff(BackoffDelay);
      }
      if TurnSignalActive(vehicleData) {
        queue := queue + [DmmMsg(egoL2id, vehicleData[TurnSignalField])];
      }
      if |proximityBsm| > 0 {
        var swept := DeleteTimeErrorData(DictArg(proximityBsm), bsmNow);
        proximityBsm := swept.dict;
      }
      if |proximityRsu| > 0 {
        var swept := DeleteTimeErrorData(DictArg(proximityRsu), rsuNow);
        proximityRsu := swept.dict;
      }
      return Paced(Pause(updateInterval, dt));
    }
  }
}
