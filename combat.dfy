/**
 * The combat registry: for every tagged player the time (in epoch
 * milliseconds) at which their tag ends, and the enemy they are fighting.
 * Events are not dispatched; what their observers decide is passed in.
 */
module Combat {
  import opened Wrappers
  import opened Entities
  import opened Text
  import opened TimerPolicy
  import opened TagMessages

  /**
   * What the observers of one `tag` call decide: whether they cancel the
   * pre-tag event, whether they cancel the re-tag event, and the end time
   * they leave on the tag or re-tag event when they change it.
   */
  datatype TagObservers = TagObservers(cancelPreTag: bool, cancelReTag: bool, endTimeOverride: Option<int>)

  /** The notifications a `tag` call emits, in order. */
  datatype TagNotice =
    | PreTagEvent
    | ReTagEvent(proposedEnd: int)
    | TagEvent(proposedEnd: int)
    | TaggedMessage(key: string)

  /** The untag event: its reason and the enemy the player had. */
  datatype UntagNotice = UntagNotice(reason: UntagReason, previousEnemy: Option<Entity>)

  /** Java's `(int)` cast of a double: values outside the `int` range saturate. */
  function SaturateInt(x: int): (r: int)
    ensures IntMin <= r <= IntMax
    ensures IntMin <= x <= IntMax ==> r == x
    ensures x < IntMin ==> r == IntMin
    ensures x > IntMax ==> r == IntMax
  {
    if x < IntMin then IntMin else if x > IntMax then IntMax else x
  }

  /** The smallest whole number of seconds that covers `millis`. */
  function CeilSeconds(millis: int): (s: int)
    ensures 1000 * (s - 1) < millis <= 1000 * s
  {
    -((-millis) / 1000)
  }

  class CombatManager {
    var combatMap: map<Uuid, int>
    var enemyMap: map<Uuid, Entity>

    constructor ()
      ensures combatMap == map[] && enemyMap == map[]
      ensures EnemiesHaveRecords()
    {
      combatMap := map[];
      enemyMap := map[];
    }

    /** Every recorded enemy belongs to a player who is in combat. */
    predicate EnemiesHaveRecords()
      reads this
    {
      enemyMap.Keys <= combatMap.Keys
    }

    /**
     * `isInCombat`: whether the registry holds an end time for the player,
     * whether or not that time has passed.
     */
    predicate IsInCombat(player: Player)
      reads this
    {
      player.id in combatMap
    }

    /** `getEnemy`: the recorded enemy, if any. */
    function GetEnemy(player: Player): (enemy: Option<Entity>)
      reads this
      ensures enemy.Some? <==> player.id in enemyMap
      ensures enemy.Some? ==> enemy.value == enemyMap[player.id]
    {
      if player.id in enemyMap then Some(enemyMap[player.id]) else None
    }

    /**
     * `getTimerLeftMillis`: the end time minus `now`, or -1 for a player
     * who is not in combat.
     */
    function TimerLeftMillis(player: Player, now: int): (left: int)
      reads this
      ensures player.id !in combatMap ==> left == -1
      ensures player.id in combatMap ==> now + left == combatMap[player.id]
    {
      if player.id !in combatMap then -1 else combatMap[player.id] - now
    }

    /**
     * `getTimerLeftSeconds`: the time left rounded up to whole seconds, as
     * an `int`; a player not in combat gets 0.
     */
    function TimerLeftSeconds(player: Player, now: int): (seconds: int)
      reads this
      ensures player.id !in combatMap ==> seconds == 0
      ensures IntMin <= seconds <= IntMax
      ensures player.id in combatMap && 1000 * IntMin < combatMap[player.id] - now <= 1000 * IntMax
        ==> 1000 * (seconds - 1) < combatMap[player.id] - now <= 1000 * seconds
      ensures player.id in combatMap && combatMap[player.id] - now > 1000 * IntMax ==> seconds == IntMax
      ensures player.id in combatMap && combatMap[player.id] - now <= 1000 * IntMin ==> seconds == IntMin
    {
      SaturateInt(CeilSeconds(TimerLeftMillis(player, now)))
    }

    /**
     * `tag` with an explicit end time. NPCs are refused; then the pre-tag
     * event may veto; a player already in combat gets a re-tag event (which
     * may veto), anyone else a tag event and the tag message. On success the
     * end time the event reports is stored, and the enemy only when one is
     * given.
     */
    method Tag(player: Player, enemy: Option<Entity>, tagType: TagType, tagReason: TagReason,
               customEndMillis: int, observers: TagObservers)
      returns (tagged: bool, notices: seq<TagNotice>)
      modifies this
      ensures notices == (if player.isNpc then []
                          else if observers.cancelPreTag then [PreTagEvent]
                          else if old(player.id in combatMap) then [PreTagEvent, ReTagEvent(customEndMillis)]
                          else [PreTagEvent, TagEvent(customEndMillis), TaggedMessage(TagMessageKey(tagType, tagReason))])
      ensures tagged <==> !player.isNpc && !observers.cancelPreTag
                          && !(old(player.id in combatMap) && observers.cancelReTag)
      ensures !tagged ==> combatMap == old(combatMap) && enemyMap == old(enemyMap)
      ensures tagged ==> combatMap == old(combatMap)[player.id := observers.endTimeOverride.GetOr(customEndMillis)]
      ensures tagged && enemy.Some? ==> enemyMap == old(enemyMap)[player.id := enemy.value]
      ensures tagged && enemy.None? ==> enemyMap == old(enemyMap)
      ensures old(EnemiesHaveRecords()) ==> EnemiesHaveRecords()
    {
      if player.isNpc {
        return false, [];
      }
      notices := [PreTagEvent];
      if observers.cancelPreTag {
        return false, notices;
      }

      var alreadyInCombat := IsInCombat(player);
      var endMillis := customEndMillis;
      if alreadyInCombat {
        notices := notices + [ReTagEvent(endMillis)];
        if observers.cancelReTag {
          return false, notices;
        }
        endMillis := observers.endTimeOverride.GetOr(endMillis);
      } else {
        notices := notices + [TagEvent(endMillis)];
        endMillis := observers.endTimeOverride.GetOr(endMillis);
        notices := notices + [TaggedMessage(TagMessageKey(tagType, tagReason))];
      }

      combatMap := combatMap[player.id := endMillis];
      if enemy.Some? {
        enemyMap := enemyMap[player.id := enemy.value];
      }
      tagged := true;
    }

    /**
     * `tag` without an end time: the tag lasts the player's maximum timer,
     * counted from `now`.
     */
    method TagWithDefaultTimer(player: Player, enemy: Option<Entity>, tagType: TagType, tagReason: TagReason,
                               now: int, config: TimerConfig, observers: TagObservers)
      returns (tagged: bool, notices: seq<TagNotice>)
      modifies this
      ensures var endMillis := now + MaxTimerSeconds(player.permissions, config) * 1000;
        && (tagged <==> !player.isNpc && !observers.cancelPreTag
                        && !(old(player.id in combatMap) && observers.cancelReTag))
        && (!tagged ==> combatMap == old(combatMap) && enemyMap == old(enemyMap))
        && (tagged ==> combatMap == old(combatMap)[player.id := observers.endTimeOverride.GetOr(endMillis)])
        && (tagged && enemy.Some? ==> enemyMap == old(enemyMap)[player.id := enemy.value])
        && (tagged && enemy.None? ==> enemyMap == old(enemyMap))
        && notices == (if player.isNpc then []
                       else if observers.cancelPreTag then [PreTagEvent]
                       else if old(player.id in combatMap) then [PreTagEvent, ReTagEvent(endMillis)]
                       else [PreTagEvent, TagEvent(endMillis), TaggedMessage(TagMessageKey(tagType, tagReason))])
      ensures old(EnemiesHaveRecords()) ==> EnemiesHaveRecords()
    {
      var timerSeconds := GetMaxTimerSeconds(player, config);
      var timerMillis := timerSeconds * 1000;
      var endMillis := now + timerMillis;
      tagged, notices := Tag(player, enemy, tagType, tagReason, endMillis, observers);
    }

    /**
     * `untag`: nothing for a player not in combat; otherwise both entries
     * are removed and an untag event carries the enemy the player had.
     */
    method Untag(player: Player, untagReason: UntagReason) returns (notice: Option<UntagNotice>)
      modifies this
      ensures old(player.id !in combatMap) ==>
        notice == None && combatMap == old(combatMap) && enemyMap == old(enemyMap)
      ensures old(player.id in combatMap) ==>
        && notice == Some(UntagNotice(untagReason, old(GetEnemy(player))))
        && combatMap == old(combatMap) - {player.id}
        && enemyMap == old(enemyMap) - {player.id}
      ensures player.id !in combatMap
      ensures old(EnemiesHaveRecords()) ==> EnemiesHaveRecords() && player.id !in enemyMap
    {
      if !IsInCombat(player) {
        return None;
      }
      combatMap := combatMap - {player.id};
      var previousEnemy := GetEnemy(player);
      enemyMap := enemyMap - {player.id};
      notice := Some(UntagNotice(untagReason, previousEnemy));
    }

    /**
     * `getByEnemy`: a player whose recorded enemy is the entity `enemy`, or
     * none when no player has that enemy.
     */
    method GetByEnemy(enemy: Entity) returns (owner: Option<Uuid>)
      ensures owner.None? <==> forall id :: id in enemyMap ==> !enemyMap[id].SameAs(enemy)
      ensures owner.Some? ==> owner.value in enemyMap && enemyMap[owner.value].SameAs(enemy)
    {
      owner := None;
      if exists id :: id in enemyMap && enemyMap[id].SameAs(enemy) {
        var pending := enemyMap.Keys;
        while pending != {} && owner.None?
          invariant pending <= enemyMap.Keys
          invariant forall id :: id in enemyMap && id !in pending ==> !enemyMap[id].SameAs(enemy) || owner.Some?
          invariant owner.Some? ==> owner.value in enemyMap && enemyMap[owner.value].SameAs(enemy)
          decreases pending
        {
          var id :| id in pending;
          if enemyMap[id].SameAs(enemy) {
            owner := Some(id);
          }
          pending := pending - {id};
        }
      }
    }

    /** The combat records of the players who are online. */
    static function OnlineRecords(records: map<Uuid, int>, online: set<Uuid>): (kept: map<Uuid, int>)
      ensures kept.Keys == records.Keys * online
      ensures forall id :: id in kept ==> kept[id] == records[id]
    {
      map id | id in records && id in online :: records[id]
    }

    /**
     * `getPlayersInCombat`: the tagged players who are online, each once;
     * the records of offline players are dropped from the combat map, and
     * the enemy map is left alone.
     */
    method GetPlayersInCombat(online: set<Uuid>) returns (players: seq<Uuid>)
      modifies this`combatMap
      ensures combatMap == OnlineRecords(old(combatMap), online)
      ensures forall id :: id in players <==> id in old(combatMap) && id in online
      ensures forall i, j :: 0 <= i < j < |players| ==> players[i] != players[j]
    {
      players := [];
      var keySet := combatMap.Keys;
      ghost var snapshot := combatMap;
      while keySet != {}
        invariant keySet <= snapshot.Keys
        invariant combatMap == map id | id in snapshot && (id in keySet || id in online) :: snapshot[id]
        invariant forall id :: id in players <==> id in snapshot && id !in keySet && id in online
        invariant forall i, j :: 0 <= i < j < |players| ==> players[i] != players[j]
        decreases keySet
      {
        var id :| id in keySet;
        if id !in online {
          combatMap := combatMap - {id};
        } else {
          players := players + [id];
        }
        keySet := keySet - {id};
      }
    }

    /**
     * `getPlayersInCombat` as evidently intended: as above, and the enemy
     * of every evicted player is dropped with their record.
     */
    method GetPlayersInCombatPruned(online: set<Uuid>) returns (players: seq<Uuid>)
      modifies this
      ensures combatMap == OnlineRecords(old(combatMap), online)
      ensures enemyMap == map id | id in old(enemyMap) && (id !in old(combatMap) || id in online) :: old(enemyMap)[id]
      ensures forall id :: id in players <==> id in old(combatMap) && id in online
      ensures forall i, j :: 0 <= i < j < |players| ==> players[i] != players[j]
      ensures old(EnemiesHaveRecords()) ==> EnemiesHaveRecords()
    {
      players := [];
      var keySet := combatMap.Keys;
      ghost var snapshot := combatMap;
      ghost var enemies := enemyMap;
      while keySet != {}
        invariant keySet <= snapshot.Keys
        invariant combatMap == map id | id in snapshot && (id in keySet || id in online) :: snapshot[id]
        invariant enemyMap == map id | id in enemies && (id !in snapshot || id in keySet || id in online) :: enemies[id]
        invariant forall id :: id in players <==> id in snapshot && id !in keySet && id in online
        invariant forall i, j :: 0 <= i < j < |players| ==> players[i] != players[j]
        decreases keySet
      {
        var id :| id in keySet;
        if id !in online {
          combatMap := combatMap - {id};
          enemyMap := enemyMap - {id};
        } else {
          players := players + [id];
        }
        keySet := keySet - {id};
      }
    }
  }

  /**
   * Re-tag scenario: tagged by B at t=0 for 10 s, 6 s are left
   * at t=4; re-tagged without an enemy at t=5 for 10 s, B is still the
   * enemy and 9 s are left at t=6; after untag, 0.
   */
  method ReTagKeepsEnemyScenario(a: Player, b: Entity, melee: TagType, attacked: TagReason, quit: UntagReason)
    requires !a.isNpc
  {
    var manager := new CombatManager();
    var noVeto := TagObservers(false, false, None);
    var tagged, notices := manager.Tag(a, Some(b), melee, attacked, 10_000, noVeto);
    assert tagged && notices[1] == TagEvent(10_000);
    assert manager.TimerLeftSeconds(a, 4_000) == 6;
    assert manager.IsInCombat(a);
    tagged, notices := manager.Tag(a, None, melee, attacked, 15_000, noVeto);
    assert tagged && notices == [PreTagEvent, ReTagEvent(15_000)];
    assert manager.GetEnemy(a) == Some(b);
    assert manager.TimerLeftSeconds(a, 6_000) == 9;
    var first := manager.Untag(a, quit);
    var second := manager.Untag(a, quit);
    assert first == Some(UntagNotice(quit, Some(b))) && second == None;
    assert manager.TimerLeftSeconds(a, 6_000) == 0 && manager.TimerLeftMillis(a, 6_000) == -1;
  }

  /**
   * A tag whose time has run out still counts as combat until it is
   * untagged or evicted; only the time left shows that it is over.
   */
  lemma ExpiredTagStillInCombat(manager: CombatManager, player: Player, now: int)
    requires player.id in manager.combatMap && manager.combatMap[player.id] <= now
    ensures manager.IsInCombat(player)
    ensures manager.TimerLeftMillis(player, now) <= 0 && manager.TimerLeftSeconds(player, now) <= 0
  {
  }

  /**
   * The player's record is evicted while they are offline, but their enemy
   * stays: afterwards the enemy map names a player with no combat record.
   */
  method StaleEnemyAfterEviction(a: Player, b: Entity, t: TagType, r: TagReason)
    returns (manager: CombatManager)
    requires !a.isNpc
    ensures a.id in manager.enemyMap && a.id !in manager.combatMap
    ensures !manager.EnemiesHaveRecords()
  {
    manager := new CombatManager();
    var tagged, notices := manager.Tag(a, Some(b), t, r, 10_000, TagObservers(false, false, None));
    var players := manager.GetPlayersInCombat({});
    assert manager.GetEnemy(a) == Some(b);
  }
}
