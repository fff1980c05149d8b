/**
 * The values the combat registry and the combat NPC talk about: players,
 * the living entities they fight, their permissions and the categorical
 * reasons attached to tags and untags.
 */
module Entities {

  /** A Java UUID: two 64-bit halves, compared by value. */
  datatype Uuid = Uuid(mostSigBits: int, leastSigBits: int)

  /**
   * A handle on a living entity (the enemy): its identity and the display
   * name the server's entity handler reports for it.
   */
  datatype Entity = Entity(id: Uuid, name: string) {
    /** Java's `equals` on entities: the same entity, whatever its current name. */
    predicate SameAs(other: Entity) {
      id == other.id
    }
  }

  /** One effective permission of a player: its name and whether it is granted. */
  datatype PermissionInfo = PermissionInfo(permission: string, granted: bool)

  /**
   * The part of an online player the core reads: its identifier, its name,
   * whether it carries the "NPC" metadata, and its effective permissions.
   */
  datatype Player = Player(id: Uuid, name: string, isNpc: bool, permissions: set<PermissionInfo>)

  /** A tag type, identified by the `name()` of its enum constant. */
  datatype TagType = TagType(name: string) {
    predicate IsUnknown() { name == "UNKNOWN" }
  }

  /** A tag reason, identified by the `name()` of its enum constant. */
  datatype TagReason = TagReason(name: string) {
    predicate IsUnknown() { name == "UNKNOWN" }
  }

  /** An untag (or punishment) reason, identified by its enum constant's name. */
  datatype UntagReason = UntagReason(name: string)
}
