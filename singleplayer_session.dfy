/**
 * The single-player session: one local player joins, and the session owns
 * the level being played, which it replaces on request.
 */
module Session {
  import opened Wrappers

  /** The id every local single-player player gets. */
  const LocalPlayerId := 1999

  class Player {
    var id: int
    var name: string

    constructor (id: int, name: string)
      ensures this.id == id && this.name == name
    {
      this.id := id;
      this.name := name;
    }
  }

  /** A level as the session sees it: whether it is in the middle of an update. */
  class Level {
    var updating: bool
    var initialized: bool
    /** Set once the session has deleted the level. */
    var deleted: bool

    constructor (updating: bool)
      ensures this.updating == updating && !initialized && !deleted
    {
      this.updating := updating;
      initialized := false;
      deleted := false;
    }
  }

  /** Notifications the session sends to its listeners. */
  datatype SessionEvent =
    | JoinRequestDeclined(reason: string)
    | NewLevel(level: Level?)
    | PlayerEntitiesSpawned

  class SingleplayerSession {
    var players: seq<Player>
    var localPlayer: Player?
    var level: Level?
    var events: seq<SessionEvent>

    constructor ()
      ensures players == [] && localPlayer == null && level == null && events == []
    {
      players := [];
      localPlayer := null;
      level := null;
      events := [];
    }

    /**
     * `join(username)`. `declineReason` is what validating the name reported
     * (empty when it is accepted). Only one player is supported, so an
     * accepted join needs an empty session.
     */
    method Join(username: string, declineReason: string)
      requires declineReason == "" ==> players == []
      modifies this`players, this`localPlayer, this`events
      ensures declineReason != "" ==>
                players == old(players) && localPlayer == old(localPlayer) &&
                events == old(events) + [JoinRequestDeclined(declineReason)]
      ensures declineReason == "" ==>
                localPlayer != null && fresh(localPlayer) &&
                localPlayer.id == LocalPlayerId && localPlayer.name == username &&
                players == [localPlayer] && events == old(events)
    {
      if declineReason != "" {
        events := events + [JoinRequestDeclined(declineReason)];
        return;
      }
      localPlayer := new Player(LocalPlayerId, username);
      players := players + [localPlayer];
    }

    /**
     * `setLevel(newLevel)`: refused while the current level is updating;
     * otherwise the current level is deleted and replaced, and a new level is
     * initialized, announced and given the players' entities, while no level
     * is announced as such.
     */
    method SetLevel(newLevel: Level?) returns (outcome: Outcome)
      modifies this`level, this`events, level, newLevel
      ensures old(level) != null && old(level.updating) ==>
                outcome == Fail("cant set a level while updating") &&
                level == old(level) && events == old(events) && unchanged(old(level)) &&
                (newLevel != null ==> unchanged(newLevel))
      ensures !(old(level) != null && old(level.updating)) ==> outcome == Pass && level == newLevel
      ensures outcome.Pass? && old(level) != null ==> old(level).deleted
      ensures outcome.Pass? && newLevel != null && newLevel != old(level) ==> newLevel.deleted == old(newLevel.deleted)
      ensures outcome.Pass? && newLevel != null ==>
                newLevel.initialized && newLevel.updating == old(newLevel.updating) &&
                events == old(events) + [NewLevel(newLevel), PlayerEntitiesSpawned]
      ensures outcome.Pass? && newLevel == null ==> events == old(events) + [NewLevel(null)]
    {
      if level != null && level.updating {
        return Fail("cant set a level while updating");
      }
      if level != null {
        level.deleted := true;
      }
      level := newLevel;
      if level != null {
        level.initialized := true;
        events := events + [NewLevel(level), PlayerEntitiesSpawned];
      } else {
        events := events + [NewLevel(null)];
      }
      return Pass;
    }
  }
}
