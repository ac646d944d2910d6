/** The network role of the actor that owns a component, in the engine's order. */
module NetRoles {

  /** ENetRole: a copy without authority is a proxy of the real owner; Authority is the top role. */
  datatype NetRole = NoRole | SimulatedProxy | AutonomousProxy | Authority

  /** The position of a role in the engine's enumeration. */
  function Rank(r: NetRole): nat {
    match r
    case NoRole => 0
    case SimulatedProxy => 1
    case AutonomousProxy => 2
    case Authority => 3
  }

  /** `GetOwnerRole() < ROLE_Authority`: the caller must ask the server instead of acting itself. */
  function IsBelowAuthority(r: NetRole): (below: bool)
    ensures below <==> r != Authority
  {
    Rank(r) < Rank(Authority)
  }
}
