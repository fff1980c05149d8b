/**
 * What happens to a punished player: the kill-time policy from
 * `punish.yml` and the follow-up commands from `commands.yml`, each with
 * `{player}`/`{enemy}` filled in and routed by its `[PLAYER]`/`[OP]` prefix.
 * The server-side effects are returned as a record rather than performed.
 */
module Punishment {
  import opened Wrappers
  import opened Entities
  import opened Text

  const PlayerToken: string := "{player}"
  const EnemyToken: string := "{enemy}"
  const PlayerPrefix: string := "[PLAYER]"
  const OperatorPrefix: string := "[OP]"
  const DefaultKillTime: string := "QUIT"

  /**
   * What `checkKill` does: kill the player now (after telling the death
   * listener), set the persisted `kill-on-join` flag, or neither.
   */
  datatype KillAction = KillNow | KillOnJoin | NoKill

  /** Who a punishment command is run as. */
  datatype CommandContext = AsPlayer | AsOperator | AsConsole

  /** A command handed to the command dispatcher, with its execution context. */
  datatype Dispatched = Dispatched(context: CommandContext, command: string)

  /** The punishment configuration: `kill-time` (absent when unset) and the command list. */
  datatype PunishConfig = PunishConfig(killTime: Option<string>, punishCommands: seq<string>)

  /** The effects of one `punish` call. */
  datatype PunishOutcome = PunishOutcome(punished: bool, kill: KillAction, commands: seq<Dispatched>)

  /** `checkKill`: an unset kill time means QUIT; only QUIT and JOIN do anything. */
  function CheckKill(killTime: Option<string>): (action: KillAction)
    ensures action == KillNow <==> killTime == None || killTime == Some("QUIT")
    ensures action == KillOnJoin <==> killTime == Some("JOIN")
    ensures action == NoKill <==> killTime.Some? && killTime.value != "QUIT" && killTime.value != "JOIN"
  {
    var option := killTime.GetOr(DefaultKillTime);
    if option == "QUIT" then KillNow
    else if option == "JOIN" then KillOnJoin
    else NoKill
  }

  /** The prefix that selects a context, empty for the console. */
  function ContextPrefix(context: CommandContext): string {
    match context
    case AsPlayer => PlayerPrefix
    case AsOperator => OperatorPrefix
    case AsConsole => ""
  }

  /**
   * The routing step of `runPunishCommands`: `[PLAYER]` is tested first,
   * then `[OP]`; a matched prefix is stripped and anything else goes to the
   * console unchanged. Putting the prefix back gives the original command.
   */
  function Route(command: string): (d: Dispatched)
    ensures ContextPrefix(d.context) + d.command == command
    ensures d.context == AsPlayer <==> StartsWith(command, PlayerPrefix)
    ensures d.context == AsOperator <==> !StartsWith(command, PlayerPrefix) && StartsWith(command, OperatorPrefix)
    ensures d.context == AsConsole ==> d.command == command
  {
    if StartsWith(command, PlayerPrefix) then Dispatched(AsPlayer, command[|PlayerPrefix|..])
    else if StartsWith(command, OperatorPrefix) then Dispatched(AsOperator, command[|OperatorPrefix|..])
    else Dispatched(AsConsole, command)
  }

  /**
   * `getEntityName`: the enemy's display name, or the player's localized
   * "unknown enemy" text when there is no enemy.
   */
  function EnemyName(enemy: Option<Entity>, unknownEnemy: string): (name: string)
    ensures enemy.Some? ==> name == enemy.value.name
    ensures enemy.None? ==> name == unknownEnemy
  {
    match enemy
    case Some(e) => e.name
    case None => unknownEnemy
  }

  /**
   * `replaceVariables`: every `{player}` becomes the player's name, then
   * every `{enemy}` the enemy's name. A template without any `{` has no
   * token and passes through unchanged.
   */
  function ReplaceVariables(player: Player, enemy: Option<Entity>, unknownEnemy: string, template: string): (r: string)
    ensures '{' !in template ==> r == template
  {
    ReplaceAll(ReplaceAll(template, PlayerToken, player.name), EnemyToken, EnemyName(enemy, unknownEnemy))
  }

  /**
   * A `{player}` token is replaced by the player's name and the text around
   * it is kept, when no other `{player}` starts in that text and no
   * `{enemy}` is left for the second pass.
   */
  lemma ReplacesPlayerToken(player: Player, enemy: Option<Entity>, unknownEnemy: string, a: string, b: string)
    requires NoMatchStartsIn(a, PlayerToken + b, PlayerToken) && NoMatch(b, PlayerToken)
    requires NoMatch(a + player.name + b, EnemyToken)
    ensures ReplaceVariables(player, enemy, unknownEnemy, a + PlayerToken + b) == a + player.name + b
  {
    ReplaceAllOnce(a, PlayerToken, b, player.name);
    ReplaceAllNoMatch(a + player.name + b, EnemyToken, EnemyName(enemy, unknownEnemy));
  }

  /**
   * An `{enemy}` token is replaced by the enemy's name and the text around
   * it is kept, when the template holds no `{player}` and no other
   * `{enemy}` starts in that text.
   */
  lemma ReplacesEnemyToken(player: Player, enemy: Option<Entity>, unknownEnemy: string, a: string, b: string)
    requires NoMatch(a + EnemyToken + b, PlayerToken)
    requires NoMatchStartsIn(a, EnemyToken + b, EnemyToken) && NoMatch(b, EnemyToken)
    ensures ReplaceVariables(player, enemy, unknownEnemy, a + EnemyToken + b) == a + EnemyName(enemy, unknownEnemy) + b
  {
    var enemyName := EnemyName(enemy, unknownEnemy);
    ReplaceAllNoMatch(a + EnemyToken + b, PlayerToken, player.name);
    ReplaceAllOnce(a, EnemyToken, b, enemyName);
  }

  /**
   * A `{player}` token followed by an `{enemy}` token: both names land in
   * their places and the text around them is kept.
   */
  lemma ReplacesBothTokens(player: Player, enemy: Option<Entity>, unknownEnemy: string, a: string, b: string, c: string)
    requires NoMatchStartsIn(a, PlayerToken + (b + EnemyToken + c), PlayerToken) && NoMatch(b + EnemyToken + c, PlayerToken)
    requires NoMatchStartsIn(a + player.name + b, EnemyToken + c, EnemyToken) && NoMatch(c, EnemyToken)
    ensures ReplaceVariables(player, enemy, unknownEnemy, a + PlayerToken + (b + EnemyToken + c))
         == (a + player.name + b) + EnemyName(enemy, unknownEnemy) + c
  {
    var rest := b + EnemyToken + c;
    ReplaceAllOnce(a, PlayerToken, rest, player.name);
    ConcatRegroup(a, player.name, b, EnemyToken, c);
    ReplaceAllOnce(a + player.name + b, EnemyToken, c, EnemyName(enemy, unknownEnemy));
  }

  /**
   * An `{enemy}` token followed by a `{player}` token: the `{player}` pass
   * runs first, and both names still land in their places.
   */
  lemma ReplacesBothTokensEnemyFirst(player: Player, enemy: Option<Entity>, unknownEnemy: string, a: string, b: string, c: string)
    requires NoMatchStartsIn(a + EnemyToken + b, PlayerToken + c, PlayerToken) && NoMatch(c, PlayerToken)
    requires NoMatchStartsIn(a, EnemyToken + (b + player.name + c), EnemyToken) && NoMatch(b + player.name + c, EnemyToken)
    ensures ReplaceVariables(player, enemy, unknownEnemy, (a + EnemyToken + b) + PlayerToken + c)
         == a + EnemyName(enemy, unknownEnemy) + (b + player.name + c)
  {
    ReplaceAllOnce(a + EnemyToken + b, PlayerToken, c, player.name);
    ConcatRegroup(a, EnemyToken, b, player.name, c);
    ReplaceAllOnce(a, EnemyToken, b + player.name + c, EnemyName(enemy, unknownEnemy));
  }

  /**
   * `runPunishCommands`: every configured command, in order, substituted
   * and then routed.
   */
  method RunPunishCommands(player: Player, previousEnemy: Option<Entity>, unknownEnemy: string, punishCommands: seq<string>)
    returns (dispatched: seq<Dispatched>)
    ensures |dispatched| == |punishCommands|
    ensures forall i :: 0 <= i < |punishCommands| ==>
      dispatched[i] == Route(ReplaceVariables(player, previousEnemy, unknownEnemy, punishCommands[i]))
  {
    dispatched := [];
    for i := 0 to |punishCommands|
      invariant |dispatched| == i
      invariant forall j :: 0 <= j < i ==>
        dispatched[j] == Route(ReplaceVariables(player, previousEnemy, unknownEnemy, punishCommands[j]))
    {
      var replacedCommand := ReplaceVariables(player, previousEnemy, unknownEnemy, punishCommands[i]);
      var routed := Route(replacedCommand);
      assert forall j :: 0 <= j < i ==> (dispatched + [routed])[j] == dispatched[j];
      dispatched := dispatched + [routed];
    }
  }

  /**
   * `punish`: a cancelled punish event stops everything; otherwise the
   * kill-time policy applies and then the commands run.
   */
  method Punish(player: Player, previousEnemy: Option<Entity>, unknownEnemy: string,
                config: PunishConfig, punishEventCancelled: bool)
    returns (outcome: PunishOutcome)
    ensures punishEventCancelled ==> outcome == PunishOutcome(false, NoKill, [])
    ensures !punishEventCancelled ==> outcome.punished && outcome.kill == CheckKill(config.killTime)
    ensures !punishEventCancelled ==> |outcome.commands| == |config.punishCommands|
    ensures !punishEventCancelled ==> forall i :: 0 <= i < |config.punishCommands| ==>
      outcome.commands[i] == Route(ReplaceVariables(player, previousEnemy, unknownEnemy, config.punishCommands[i]))
  {
    if punishEventCancelled {
      return PunishOutcome(false, NoKill, []);
    }
    var kill := CheckKill(config.killTime);
    var commands := RunPunishCommands(player, previousEnemy, unknownEnemy, config.punishCommands);
    outcome := PunishOutcome(true, kill, commands);
  }
}
