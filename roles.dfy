/**
 * Game-role bindings: per guild, a lower-cased game name bound to a role
 * that members receive while they play that game.
 */
module Roles {
  import opened Wrappers
  import opened Text
  import opened Sessions

  type RoleTable = map<GuildId, map<string, RoleId>>

  /** The bindings of one guild; a guild never configured has none. */
  function Bindings(roles: RoleTable, guild: GuildId): map<string, RoleId>
  {
    if guild in roles then roles[guild] else map[]
  }

  /**
   * `add_game_role`: binds the lower-cased name to the role in this guild,
   * overwriting an earlier binding of that name and touching nothing else.
   */
  function Bind(roles: RoleTable, guild: GuildId, name: string, role: RoleId): (r: RoleTable)
    ensures r.Keys == roles.Keys + {guild}
    ensures forall g :: g in roles && g != guild ==> r[g] == roles[g]
    ensures r[guild].Keys == Bindings(roles, guild).Keys + {Lower(name)}
    ensures r[guild][Lower(name)] == role
    ensures forall n :: n in Bindings(roles, guild) && n != Lower(name) ==> r[guild][n] == Bindings(roles, guild)[n]
  {
    var inner := if guild in roles then roles[guild] else map[];
    roles[guild := inner[Lower(name) := role]]
  }

  /**
   * The decision part of `handle_game_role`: the role to grant or revoke, if
   * any.  Nothing happens when the guild has no bindings, the name is empty,
   * the lower-cased name is unbound or the bound role no longer exists among
   * the guild's roles `live`.
   */
  function RoleFor(roles: RoleTable, guild: GuildId, name: string, live: set<RoleId>): Option<RoleId>
  {
    if guild !in roles || name == "" then None
    else
      var key := Lower(name);
      if key in roles[guild] && roles[guild][key] in live then Some(roles[guild][key]) else None
  }

  /**
   * The decision exactly: a role is granted or revoked when, and only when,
   * the guild has bindings, the name is non-empty, its lower-cased form is
   * bound, and the bound role still exists; otherwise nothing happens.
   */
  lemma RoleForDecides(roles: RoleTable, guild: GuildId, name: string, live: set<RoleId>, role: RoleId)
    ensures RoleFor(roles, guild, name, live) == Some(role) <==>
      guild in roles && name != "" && Lower(name) in roles[guild] && roles[guild][Lower(name)] == role && role in live
    ensures RoleFor(roles, guild, name, live).None? <==>
      guild !in roles || name == "" || Lower(name) !in roles[guild] || roles[guild][Lower(name)] !in live
  {
  }

  /** Before any `addgamerole`, no game has a role to grant or revoke. */
  lemma NoBindingsNoDecision(guild: GuildId, name: string, live: set<RoleId>)
    ensures RoleFor(map[], guild, name, live) == None
  {
  }

  /** A binding is found again under any spelling of the name that folds to the same key. */
  lemma BindThenResolve(roles: RoleTable, guild: GuildId, name: string, spelling: string, role: RoleId, live: set<RoleId>)
    requires Lower(spelling) == Lower(name) && spelling != ""
    ensures RoleFor(Bind(roles, guild, name, role), guild, spelling, live) == if role in live then Some(role) else None
  {
  }

  /** Binding one name changes no decision about another name or another guild. */
  lemma BindKeepsOtherDecisions(roles: RoleTable, guild: GuildId, name: string, role: RoleId,
                                   g: GuildId, other: string, live: set<RoleId>)
    requires g != guild || Lower(other) != Lower(name)
    ensures RoleFor(Bind(roles, guild, name, role), g, other, live) == RoleFor(roles, g, other, live)
  {
  }
}
