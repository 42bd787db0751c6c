/**
 * The weapon table the combat rules consult. The table itself is loaded from
 * data outside this model; only the shape of one entry matters here.
 */
module Weapons {

  /**
   * One weapon. `fireIntervalMs` is the shortest time between two shots (the
   * source keeps a rate in shots per second and compares against its inverse);
   * `reloadTimeMs` is how long a reload takes.
   */
  datatype Weapon = Weapon(
    name: string,
    ammo: nat,
    damage: nat,
    fireIntervalMs: nat,
    reloadTimeMs: nat)

  /** Weapon id to weapon. */
  type WeaponDb = map<nat, Weapon>

  /** The weapon every new player starts with. */
  const DefaultWeaponId: nat := 1
}
