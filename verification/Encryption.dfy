/** Encrypted columns, with ideal encryption: a sealed value opens under its key id and no other. */
module Encryption {
  import opened Common

  /** A JSON column: an envelope naming its key id, or a value stored in the clear. */
  datatype Stored = Sealed(kid: string, text: string) | Clear(text: string)

  /** What one process knows of encryption. */
  datatype Runtime = Runtime(enabled: bool, rotationMode: bool, active: string, ring: set<string>) {
    /** The check made before startup and before a rotation. */
    predicate Configured() {
      enabled ==> active in ring
    }
  }

  function ToJson(r: Runtime, text: string): Stored {
    if r.enabled then Sealed(r.active, text) else Clear(text)
  }

  /** Reading throws when the key of an envelope is not in the ring. */
  function FromJson(r: Runtime, cell: Stored): Option<string> {
    match cell
    case Clear(text) => Some(text)
    case Sealed(kid, text) => if kid in r.ring then Some(text) else None
  }

  /** What one process stores, every process holding the key reads back. */
  lemma StoreThenRead(writer: Runtime, reader: Runtime, text: string)
    requires writer.Configured()
    ensures FromJson(reader, ToJson(writer, text)) == Some(text) <==>
            !writer.enabled || writer.active in reader.ring
  {
  }

  // ----- The state record and the startup gate ---------------------------------

  datatype RotationStatus = Completed | Running | Failed

  datatype StateRow = StateRow(enabled: bool, activeKeyId: string, previousKeyIds: seq<string>, status: RotationStatus)

  /** Rows that exist before encryption is enabled, by table. */
  datatype Counts = Counts(auditLogs: nat, dlqItems: nat, targetSystems: nat, liveKeys: nat) {
    predicate Empty() {
      auditLogs == 0 && dlqItems == 0 && targetSystems == 0 && liveKeys == 0
    }
  }

  /** Which processes may start against which database. */
  predicate Admits(r: Runtime, state: Option<StateRow>, counts: Counts) {
    if !r.enabled then state.None? || !state.value.enabled
    else
      && r.active in r.ring
      && if state.None? then counts.Empty()
         else
           && state.value.enabled
           && state.value.activeKeyId in r.ring
           && (state.value.activeKeyId == r.active || r.rotationMode)
  }

  /** The startup check of the database connection; it may insert the state record. */
  class StartupGate {
    var state: Option<StateRow>

    constructor (state: Option<StateRow>)
      ensures this.state == state
    {
      this.state := state;
    }

    method ValidateEncryptionState(r: Runtime, counts: Counts) returns (started: bool)
      modifies this
      ensures started <==> Admits(r, old(state), counts)
      ensures !r.enabled ==> (started <==> old(state).Some? ==> !old(state).value.enabled)
      ensures r.enabled && old(state).None? ==>
                (started <==> && r.active in r.ring && counts.auditLogs == 0 && counts.dlqItems == 0
                              && counts.targetSystems == 0 && counts.liveKeys == 0)
      ensures r.enabled && old(state).Some? ==>
                var s := old(state).value;
                (started <==> && r.active in r.ring && s.enabled && s.activeKeyId in r.ring
                              && (r.active != s.activeKeyId ==> r.rotationMode))
      ensures state == if started && r.enabled && old(state).None?
                       then Some(StateRow(true, r.active, [], Completed)) else old(state)
    {
      if r.enabled && r.active !in r.ring {
        return false;
      }
      if !r.enabled {
        return state.None? || !state.value.enabled;
      }
      if state.None? {
        if counts.auditLogs > 0 || counts.dlqItems > 0 || counts.targetSystems > 0 || counts.liveKeys > 0 {
          return false;
        }
        state := Some(StateRow(true, r.active, [], Completed));
        return true;
      }
      if !state.value.enabled {
        return false;
      }
      if state.value.activeKeyId !in r.ring {
        return false;
      }
      started := state.value.activeKeyId == r.active || r.rotationMode;
    }
  }

  /** Outside rotation mode, every process admitted to an encrypted database seals under the recorded key. */
  lemma AdmittedWritersAgree(r: Runtime, s: StateRow, counts: Counts, text: string)
    requires s.enabled && Admits(r, Some(s), counts) && !r.rotationMode
    ensures ToJson(r, text) == Sealed(s.activeKeyId, text)
    ensures s.activeKeyId in r.ring
  {
  }
}
