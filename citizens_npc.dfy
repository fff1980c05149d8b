/**
 * The combat NPC that stands in for a player who logged out in combat. It
 * counts down its survival time one server tick per run; when the count
 * runs out it either waits for its enemy's combat tag to end or removes
 * itself.
 */
module CitizensNpc {
  import opened Wrappers
  import opened Entities

  const TicksPerSecond: int := 20
  const MillisPerTick: int := 50

  /** Java's `/` on `long`: the quotient rounded toward zero. */
  function TruncDiv(a: int, b: int): int
    requires b > 0
  {
    if a >= 0 then a / b else -((-a) / b)
  }

  /**
   * What one run sees of the outside world: the stay-until-enemy-escapes
   * setting, whether the enemy is online, and the enemy's combined time
   * left in milliseconds when the combat manager has tag information.
   */
  datatype TickEnv = TickEnv(stayUntilEnemyEscapes: bool, enemyOnline: bool, enemyMillisLeft: Option<int>)

  /** A run whose count has run out waits for the enemy instead of removing the NPC. */
  predicate WaitsForEnemy(enemyId: Option<Uuid>, env: TickEnv) {
    env.stayUntilEnemyEscapes && enemyId.Some? && env.enemyOnline && env.enemyMillisLeft.Some?
  }

  /**
   * `millisLeft / 50 + 1` in Java: the quotient is rounded toward zero, so
   * a negative time left rounds up rather than down.
   */
  function TicksFor(millisLeft: int): (ticks: int)
    ensures 0 <= millisLeft ==> 0 <= MillisPerTick * (ticks - 1) <= millisLeft < MillisPerTick * ticks
    ensures millisLeft < 0 ==> MillisPerTick * (ticks - 2) < millisLeft <= MillisPerTick * (ticks - 1) <= 0
  {
    TruncDiv(millisLeft, MillisPerTick) + 1
  }

  /**
   * One run on the survival count `ticks`: the new count, and whether the
   * NPC removed itself.
   */
  function Tick(ticks: int, enemyId: Option<Uuid>, env: TickEnv): (r: (int, bool))
    ensures ticks - 1 > 0 ==> r == (ticks - 1, false)
    ensures ticks - 1 <= 0 && WaitsForEnemy(enemyId, env) ==> r == (TicksFor(env.enemyMillisLeft.value), false)
    ensures ticks - 1 <= 0 && !WaitsForEnemy(enemyId, env) ==> r == (ticks - 1, true)
  {
    var left := ticks - 1;
    if left > 0 then (left, false)
    else if WaitsForEnemy(enemyId, env) then (TicksFor(env.enemyMillisLeft.value), false)
    else (left, true)
  }

  /**
   * The count after `k` runs in an unchanging world, or `None` when the NPC
   * removed itself during one of them.
   */
  function AfterRuns(ticks: int, enemyId: Option<Uuid>, env: TickEnv, k: nat): Option<int>
    decreases k
  {
    if k == 0 then Some(ticks)
    else match AfterRuns(ticks, enemyId, env, k - 1)
      case None => None
      case Some(t) => if Tick(t, enemyId, env).1 then None else Some(Tick(t, enemyId, env).0)
  }

  lemma {:induction false} SurvivesBeforeCountRunsOut(ticks: int, enemyId: Option<Uuid>, env: TickEnv, k: nat)
    requires k < ticks
    ensures AfterRuns(ticks, enemyId, env, k) == Some(ticks - k)
    decreases k
  {
    if k > 0 {
      SurvivesBeforeCountRunsOut(ticks, enemyId, env, k - 1);
    }
  }

  /**
   * With no extension, a count of `ticks >= 1` keeps the NPC for exactly
   * `ticks - 1` runs and the next run removes it.
   */
  lemma {:induction false} RemovedWhenCountRunsOut(ticks: int, enemyId: Option<Uuid>, env: TickEnv)
    requires ticks >= 1 && !WaitsForEnemy(enemyId, env)
    ensures forall k: nat :: k < ticks ==> AfterRuns(ticks, enemyId, env, k) == Some(ticks - k)
    ensures AfterRuns(ticks, enemyId, env, ticks) == None
  {
    forall k: nat | k < ticks
      ensures AfterRuns(ticks, enemyId, env, k) == Some(ticks - k)
    {
      SurvivesBeforeCountRunsOut(ticks, enemyId, env, k);
    }
    SurvivesBeforeCountRunsOut(ticks, enemyId, env, ticks - 1);
  }

  /**
   * With no enemy set, an NPC reset to `survivalSeconds >= 1` seconds is
   * removed on exactly the `survivalSeconds * 20`-th run.
   */
  lemma RemovedAfterSurvivalTime(survivalSeconds: int, env: TickEnv)
    requires survivalSeconds >= 1
    ensures var ticks := survivalSeconds * TicksPerSecond;
      && (forall k: nat :: k < ticks ==> AfterRuns(ticks, None, env, k).Some?)
      && AfterRuns(ticks, None, env, ticks) == None
  {
    RemovedWhenCountRunsOut(survivalSeconds * TicksPerSecond, None, env);
  }

  class CombatNpc {
    /** The player the NPC stands in for. */
    const ownerId: Uuid
    var enemyId: Option<Uuid>
    var survivalTicks: int

    constructor (owner: Uuid)
      ensures ownerId == owner && enemyId == None && survivalTicks == 0
    {
      ownerId := owner;
      enemyId := None;
      survivalTicks := 0;
    }

    /** `run`: one tick of the countdown; `removed` when the NPC removed itself. */
    method Run(env: TickEnv) returns (removed: bool)
      modifies this`survivalTicks
      ensures (survivalTicks, removed) == Tick(old(survivalTicks), enemyId, env)
    {
      survivalTicks := survivalTicks - 1;
      if survivalTicks > 0 {
        return false;
      }
      if env.stayUntilEnemyEscapes && enemyId.Some? {
        if env.enemyOnline {
          if env.enemyMillisLeft.Some? {
            var timeLeftMillis := env.enemyMillisLeft.value;
            survivalTicks := TruncDiv(timeLeftMillis, MillisPerTick) + 1;
            return false;
          }
        }
      }
      removed := true;
    }

    /** `resetSurvivalTime`: the configured survival time, in ticks. */
    method ResetSurvivalTime(survivalSeconds: int)
      modifies this`survivalTicks
      ensures survivalTicks == survivalSeconds * TicksPerSecond
    {
      survivalTicks := survivalSeconds * TicksPerSecond;
    }

    /** `start`, without the scheduling: the survival time is reset. */
    method Start(survivalSeconds: int)
      modifies this`survivalTicks
      ensures survivalTicks == survivalSeconds * TicksPerSecond
    {
      ResetSurvivalTime(survivalSeconds);
    }

    /** `setEnemy`: records the enemy and nothing else. */
    method SetEnemy(enemy: Player)
      modifies this`enemyId
      ensures enemyId == Some(enemy.id)
    {
      enemyId := Some(enemy.id);
    }
  }
}
