# CombatLogX combat registry and combat NPC countdown, in Dafny

This project models the core of CombatLogX, a Minecraft server plugin. The
plugin puts players "in combat" when they fight and punishes players who log
out while in combat. The model covers two parts of the plugin.

- **The combat registry (`CombatManager`).** For each tagged player, the
  registry keeps the epoch-millisecond time at which the tag ends
  (`combatMap`) and the enemy the player is fighting (`enemyMap`). Its
  operations are: tagging and re-tagging, untagging, the queries, the lazy
  eviction of offline players, how long a tag lasts, and punishment.
- **The countdown of the combat NPC (`CombatNPC`, Citizens expansion).** This
  NPC stands in for a player who logged out in combat. It counts down one
  server tick per run. When the count runs out, it either waits for its
  enemy's tag to end or removes itself.

Modules, one per component:

- `Entities` (`entities.dfy`): players, entity handles, permissions, and tag
  and untag reasons.
- `Text` (`text.dfy`): the Java string operations the core uses:
  `startsWith`, `String.replace`, ASCII `toLowerCase` and `Integer.parseInt`.
- `TimerPolicy` (`timer.dfy`): `getMaxTimerSeconds`, `getGlobalTimerSeconds`
  and `getPermissionTimerSeconds`.
- `TagMessages` (`messages.dfy`): the language key that `sendTagMessage`
  chooses.
- `Combat` (`combat.dfy`): the class `CombatManager`, which owns both maps.
- `Punishment` (`punishment.dfy`): `punish`, `checkKill`, `runPunishCommands`
  and `replaceVariables`.
- `CitizensNpc` (`citizens_npc.dfy`): the class `CombatNpc`.
- `Wrappers` (`wrappers.dfy`): `Option`, which stands for Java's nullable
  references.

The environment is passed in as parameters:

- the clock (`now`);
- the NPC metadata flag and the effective permissions, as fields of `Player`;
- the online players (a set of UUIDs);
- the configuration values;
- the decisions of event observers, as a `TagObservers` record. It holds
  whether the pre-tag or re-tag event is cancelled, and the end time an
  observer leaves on the tag or re-tag event.

Effects on the server are returned as values, not performed:

- the notices a tag emits, in order;
- the untag event;
- the kill action;
- the list of dispatched commands, each with its context;
- whether the NPC removed itself.

Behaviour of the code worth noting:

- `isInCombat` is a membership test. A record whose end time has passed
  still counts until it is untagged or evicted.
- `getTimerLeftSeconds` returns 0, not a negative value, for a player who
  is not in combat, because the ceiling of -0.001 is 0.
- Lazy eviction in `getPlayersInCombat` drops only the combat record. The
  enemy entry stays (see Findings).

## Model

| member | source | states |
|---|---|---|
| `Combat.CombatManager.constructor` | plugin/src/main/java/com/github/sirblobman/combatlogx/manager/CombatManager.java:48-52 | The registry starts with both maps empty, so every enemy entry has its combat record from the start. |
| `Combat.CombatManager.Tag` | plugin/src/main/java/com/github/sirblobman/combatlogx/manager/CombatManager.java:64-100 | An NPC is refused with no event and no change. A cancelled pre-tag leaves both maps unchanged. A player already in combat gets only a re-tag event; if it is cancelled, both maps are unchanged. Anyone else gets a tag event (no veto) and then the tag message. On success, the stored end time is the one the event reports. The enemy is replaced only when one is given, and other players' entries are untouched. Every enemy entry keeps its combat record. |
| `Combat.CombatManager.TagWithDefaultTimer` | plugin/src/main/java/com/github/sirblobman/combatlogx/manager/CombatManager.java:54-62 | The overload without an end time behaves like `Tag` with end time `now + getMaxTimerSeconds * 1000`: the same notices on every path, the same outcome and the same new maps. |
| `Combat.CombatManager.Untag` | plugin/src/main/java/com/github/sirblobman/combatlogx/manager/CombatManager.java:102-121 | For a player not in combat: nothing changes and no event fires. Otherwise both entries of that player alone are removed, and the event carries the player's previous enemy. Afterwards the player is not in combat, so a second untag is a no-op. |
| `Combat.ExpiredTagStillInCombat` | plugin/src/main/java/com/github/sirblobman/combatlogx/manager/CombatManager.java:123-128 | `isInCombat` tests only that a record exists. A tag whose end time has passed still counts as combat, and only the time left (zero or negative) shows that it is over. |
| `Combat.CombatManager.GetEnemy` | plugin/src/main/java/com/github/sirblobman/combatlogx/manager/CombatManager.java:145-150 | Returns the recorded enemy, and none when the player has no entry. |
| `Combat.CombatManager.GetByEnemy` | plugin/src/main/java/com/github/sirblobman/combatlogx/manager/CombatManager.java:152-167 | Returns none exactly when no player's recorded enemy is that entity. Otherwise it returns a player whose recorded enemy is that entity. Entities are compared by identity, not by display name. |
| `Combat.CombatManager.TimerLeftMillis` | plugin/src/main/java/com/github/sirblobman/combatlogx/manager/CombatManager.java:169-178 | -1 for a player not in combat. Otherwise `now` plus the result is the stored end time. |
| `Combat.CombatManager.TimerLeftSeconds` | plugin/src/main/java/com/github/sirblobman/combatlogx/manager/CombatManager.java:180-185 | 0 for a player not in combat. Otherwise it is the least number of whole seconds covering the time left (the ceiling). Beyond the `int` range, the result is `Integer.MAX_VALUE` or `Integer.MIN_VALUE`. |
| `Combat.CeilSeconds` | plugin/src/main/java/com/github/sirblobman/combatlogx/manager/CombatManager.java:182-184 | `Math.ceil(millis / 1000.0)` as integers: `1000*(s-1) < millis <= 1000*s`. |
| `Combat.SaturateInt` | plugin/src/main/java/com/github/sirblobman/combatlogx/manager/CombatManager.java:184 | The `(int)` cast keeps values inside the `int` range. Values below it become `Integer.MIN_VALUE`, and values above it `Integer.MAX_VALUE`. |
| `Combat.CombatManager.GetPlayersInCombat` | plugin/src/main/java/com/github/sirblobman/combatlogx/manager/CombatManager.java:130-143 | Returns exactly the tagged players who are online, each once. The combat map keeps only the records of online players, with unchanged end times. The enemy map is not touched. |
| `Combat.CombatManager.GetPlayersInCombatPruned` | plugin/src/main/java/com/github/sirblobman/combatlogx/manager/CombatManager.java:130-143 | The corrected eviction: the same result and the same combat map, and the enemy entries of evicted players are dropped too. Every enemy entry keeps its combat record. |
| `Combat.StaleEnemyAfterEviction` | plugin/src/main/java/com/github/sirblobman/combatlogx/manager/CombatManager.java:130-143 | Shows the defect: a tag with an enemy, then eviction while offline, leaves an enemy entry with no combat record. |
| `Combat.CombatManager.OnlineRecords` | plugin/src/main/java/com/github/sirblobman/combatlogx/manager/CombatManager.java:133-139 | The records kept by eviction: the keys are the tagged keys that are online, and the end times are unchanged. |
| `TimerPolicy.GlobalTimerSeconds` | plugin/src/main/java/com/github/sirblobman/combatlogx/manager/CombatManager.java:217-221 | Returns `timer.default-timer` when it is set, and 10 otherwise. |
| `TimerPolicy.TimerSuffixesExact` | plugin/src/main/java/com/github/sirblobman/combatlogx/manager/CombatManager.java:224-230 | A suffix is collected exactly when the player has the granted permission `combatlogx.timer.` followed by that suffix. |
| `TimerPolicy.GetPermissionTimerSeconds` | plugin/src/main/java/com/github/sirblobman/combatlogx/manager/CombatManager.java:223-244 | The loop computes the permission timer: the lowest granted `combatlogx.timer.<N>` suffix that parses, or the global default when none parses. |
| `TimerPolicy.PermissionTimerIsLowestGranted` | plugin/src/main/java/com/github/sirblobman/combatlogx/manager/CombatManager.java:225-243 | The permission timer is one of the parsed suffixes and no larger than any of them. With no parseable suffix, it is the global default. |
| `TimerPolicy.GrantingNeverLengthens` | plugin/src/main/java/com/github/sirblobman/combatlogx/manager/CombatManager.java:233-243 | Lower timers win: once a timer permission applies, granting one more never lengthens the timer. |
| `TimerPolicy.NoTimerPermissionMeansDefault` | plugin/src/main/java/com/github/sirblobman/combatlogx/manager/CombatManager.java:224-231 | Permissions that are not granted, or that lack the prefix, are ignored. With no timer permission at all, the global default applies. |
| `TimerPolicy.LowestOfThirtyFifteenBogus` | plugin/src/main/java/com/github/sirblobman/combatlogx/manager/CombatManager.java:233-243 | `combatlogx.timer.30`, `combatlogx.timer.15` and `combatlogx.timer.bogus` give 15, and the unparseable suffix is skipped. |
| `TimerPolicy.GetMaxTimerSeconds` | plugin/src/main/java/com/github/sirblobman/combatlogx/manager/CombatManager.java:187-195 | Uses the permission timer only when the timer type is PERMISSION. Otherwise it is the configured default (10 when unset). |
| `Text.ParseInt` | plugin/src/main/java/com/github/sirblobman/combatlogx/manager/CombatManager.java:237 | `Integer.parseInt` succeeds only on a string with a decimal digit, and only with a value inside the `int` range. |
| `Text.ParseIntDecimal` | plugin/src/main/java/com/github/sirblobman/combatlogx/manager/CombatManager.java:237 | Parsing inverts decimal printing: every `int`, written in decimal with a minus sign when negative, parses back to itself. |
| `Text.ReplaceAll` | plugin/src/main/java/com/github/sirblobman/combatlogx/manager/CombatManager.java:213 | `String.replace` returns a string unchanged when the target's first character does not occur in it. |
| `Text.ReplaceAllSkipsPrefix` | plugin/src/main/java/com/github/sirblobman/combatlogx/manager/CombatManager.java:213 | A prefix in which no occurrence of the target starts is copied unchanged, and the scan continues after it. This includes a prefix that holds the target's first character without the rest of the target, such as the braces of a JSON command. |
| `Text.ReplaceAllAtMatch` | plugin/src/main/java/com/github/sirblobman/combatlogx/manager/CombatManager.java:213 | An occurrence at the front is replaced, and the scan resumes right after it, so occurrences never overlap. |
| `Text.ReplaceAllOnce` | plugin/src/main/java/com/github/sirblobman/combatlogx/manager/CombatManager.java:213 | A single occurrence, with no other occurrence starting before or after it, is replaced, and everything around it is kept. |
| `Text.ReplaceAllNoMatch` | plugin/src/main/java/com/github/sirblobman/combatlogx/manager/CombatManager.java:213 | A string in which no occurrence of the target starts is returned unchanged, even if it contains the target's first character. |
| `Text.ReplaceAllAbsent` | plugin/src/main/java/com/github/sirblobman/combatlogx/manager/CombatManager.java:213 | `String.replace` leaves a string unchanged when the target does not occur in it. |
| `Text.ReplaceAllSelf` | plugin/src/main/java/com/github/sirblobman/combatlogx/manager/CombatManager.java:213 | `String.replace` with a target replaced by itself changes nothing. |
| `Text.ToLowerAscii` | plugin/src/main/java/com/github/sirblobman/combatlogx/manager/CombatManager.java:325-326 | Lower-casing keeps the length and leaves no capital letter. Each capital becomes its small letter, and every other character is kept. |
| `TagMessages.TagMessageKey` | plugin/src/main/java/com/github/sirblobman/combatlogx/manager/CombatManager.java:317-328 | Every key starts with `tagged.`. An UNKNOWN type or reason gives `tagged.unknown`. Otherwise the lower-cased reason and type names follow the prefix, joined by a dot. |
| `TagMessages.UnknownKeyExactly` | plugin/src/main/java/com/github/sirblobman/combatlogx/manager/CombatManager.java:317-328 | The key is `tagged.unknown` exactly when the type or the reason is UNKNOWN. |
| `TagMessages.KnownKeyDeterminesNames` | plugin/src/main/java/com/github/sirblobman/combatlogx/manager/CombatManager.java:325-328 | A `tagged.<reason>.<type>` key determines the lower-cased reason and type. Two known pairs share a key only when their names agree up to case. |
| `Punishment.Punish` | plugin/src/main/java/com/github/sirblobman/combatlogx/manager/CombatManager.java:197-207 | A cancelled punish event gives false, with no kill and no commands. Otherwise the result is true, the kill action is the one `checkKill` chooses, and the commands are dispatched in list order. |
| `Punishment.CheckKill` | plugin/src/main/java/com/github/sirblobman/combatlogx/manager/CombatManager.java:269-286 | The player is killed now exactly when the kill time is unset or QUIT. `kill-on-join` is set exactly when it is JOIN. Any other value does neither. |
| `Punishment.RunPunishCommands` | plugin/src/main/java/com/github/sirblobman/combatlogx/manager/CombatManager.java:288-308 | One dispatched command per configured command, in order. Each is first substituted and then routed. |
| `Punishment.Route` | plugin/src/main/java/com/github/sirblobman/combatlogx/manager/CombatManager.java:294-306 | `[PLAYER]` is tested before `[OP]`, and the matched prefix is stripped. Anything else runs as console, unchanged. Putting the prefix back gives the original command. |
| `Punishment.ReplaceVariables` | plugin/src/main/java/com/github/sirblobman/combatlogx/manager/CombatManager.java:209-215 | A template without `{` holds no token and passes through unchanged. |
| `Punishment.EnemyName` | plugin/src/main/java/com/github/sirblobman/combatlogx/manager/CombatManager.java:246-255 | The enemy's display name, or the player's localized unknown-enemy text when there is no enemy. |
| `Punishment.ReplacesPlayerToken` | plugin/src/main/java/com/github/sirblobman/combatlogx/manager/CombatManager.java:213 | A `{player}` token becomes the player's name and the text around it is kept. This holds when no other `{player}` starts in that text and no `{enemy}` remains for the second pass. Other braces are allowed. |
| `Punishment.ReplacesEnemyToken` | plugin/src/main/java/com/github/sirblobman/combatlogx/manager/CombatManager.java:213 | An `{enemy}` token becomes the enemy's name, or the unknown-enemy text when there is no enemy, and the text around it is kept. This holds when the template has no `{player}` and no other `{enemy}` starts in that text. |
| `Punishment.ReplacesBothTokens` | plugin/src/main/java/com/github/sirblobman/combatlogx/manager/CombatManager.java:213 | A `{player}` token followed by an `{enemy}` token: both names land in their places, and the text around them is kept, when no other token starts in that text. |
| `Punishment.ReplacesBothTokensEnemyFirst` | plugin/src/main/java/com/github/sirblobman/combatlogx/manager/CombatManager.java:213 | An `{enemy}` token followed by a `{player}` token: the `{player}` pass runs first, and both names still land in their places, when no other token starts in the surrounding text. |
| `CitizensNpc.CombatNpc.constructor` | expansion/compatibility/Citizens/src/main/java/combatlogx/expansion/compatibility/citizens/object/CombatNPC.java:26-35 | The owner is fixed at construction (a `const`, so no method can change it). There is no enemy and the count is 0. |
| `CitizensNpc.CombatNpc.Run` | expansion/compatibility/Citizens/src/main/java/combatlogx/expansion/compatibility/citizens/object/CombatNPC.java:37-62 | One run is one `Tick` of the count. The enemy and the owner are unchanged. |
| `CitizensNpc.Tick` | expansion/compatibility/Citizens/src/main/java/combatlogx/expansion/compatibility/citizens/object/CombatNPC.java:39-61 | The count drops by exactly 1, and a positive result ends the run. When the count has run out, it waits for the enemy: the new count is `millisLeft / 50 + 1` and the NPC stays. That happens when stay-until-enemy-escapes is on, an enemy is set and online, and tag information exists. In every other case the NPC removes itself. |
| `CitizensNpc.TicksFor` | expansion/compatibility/Citizens/src/main/java/combatlogx/expansion/compatibility/citizens/object/CombatNPC.java:53-54 | The waiting count covers the enemy's remaining tag: `50*(t-1) <= millisLeft < 50*t`. A negative time left is divided rounding toward zero, as Java's `long` division does. |
| `CitizensNpc.SurvivesBeforeCountRunsOut` | expansion/compatibility/Citizens/src/main/java/combatlogx/expansion/compatibility/citizens/object/CombatNPC.java:39-42 | From a count of `n`, the first `k < n` runs only count down, to `n - k`. |
| `CitizensNpc.RemovedWhenCountRunsOut` | expansion/compatibility/Citizens/src/main/java/combatlogx/expansion/compatibility/citizens/object/CombatNPC.java:39-61 | Without a wait for the enemy, a count of `n >= 1` keeps the NPC for `n - 1` runs, and run `n` removes it. |
| `CitizensNpc.RemovedAfterSurvivalTime` | expansion/compatibility/Citizens/src/main/java/combatlogx/expansion/compatibility/citizens/object/CombatNPC.java:85-90 | With no enemy set and `survivalSeconds >= 1`, a reset NPC is removed on exactly the `survivalSeconds * 20`-th run. |
| `CitizensNpc.CombatNpc.ResetSurvivalTime` | expansion/compatibility/Citizens/src/main/java/combatlogx/expansion/compatibility/citizens/object/CombatNPC.java:85-90 | Sets the count to `survivalSeconds * 20`. |
| `CitizensNpc.CombatNpc.Start` | expansion/compatibility/Citizens/src/main/java/combatlogx/expansion/compatibility/citizens/object/CombatNPC.java:64-65 | Starting resets the count to `survivalSeconds * 20`. |
| `CitizensNpc.CombatNpc.SetEnemy` | expansion/compatibility/Citizens/src/main/java/combatlogx/expansion/compatibility/citizens/object/CombatNPC.java:92-94 | Overwrites only the enemy. |

`Combat.ReTagKeepsEnemyScenario` is a client of these contracts, written out
as a method. It plays this re-tag scenario:

- A is tagged by B at t=0 for 10 s, and 6 s are left at t=4.
- At t=5, A is re-tagged without an enemy. B is still the enemy, and 9 s
  are left at t=6.
- The first untag emits one event, and the second emits none.

## Findings

| source | as written | input that shows it | evidently intended | confidence | as-written member | corrected member |
|---|---|---|---|---|---|---|
| plugin/src/main/java/com/github/sirblobman/combatlogx/manager/CombatManager.java:130-143 | The lazy eviction removes an offline player's end time but keeps their `enemyMap` entry | Tag A with enemy B, then call `getPlayersInCombat` while A is offline. A has no combat record, yet `getEnemy(A)` is still B, and `getByEnemy(B)` can name A. A later tag of A without an enemy brings B back as A's enemy. | The enemy entry goes with the record, as `untag` does, so that every enemy entry belongs to a player in combat | medium; not executed | `Combat.StaleEnemyAfterEviction` (about `Combat.CombatManager.GetPlayersInCombat`) | `Combat.CombatManager.GetPlayersInCombatPruned` |

## Left out

- Event dispatch is not modelled. The pre-tag, tag, re-tag, untag and punish
  events become inputs (`TagObservers`, `punishEventCancelled`) or outputs
  (`TagNotice`, `UntagNotice`).
- `untag` also tells every `TimerUpdater` to drop the player. That foreign
  collaborator is not modelled.
- Debug printing is not modelled.
- `sendTagMessage` is modelled only as far as the key it chooses. The
  message's `{enemy}`/`{mob_type}` replacer and the language lookup are
  not modelled.
- The PlaceholderAPI and MVdWPlaceholderAPI passes in `replaceVariables` are
  not modelled. The model behaves as when neither plugin is enabled.
- `getEntityName` is reduced to the entity's name, or a given localized
  "unknown enemy" text when there is no enemy.
- The server effects of punishment are recorded, not performed. `KillNow`
  stands for the death-listener registration and `setHealth(0)`, and
  `KillOnJoin` for setting and saving `kill-on-join`. Applying the flag on
  the next join happens outside this core.
- Command execution through `CommandHelper` is recorded as `(context,
  command)` pairs.
- `TimerType.parse` and the `TagType`/`TagReason` enum declarations are not
  part of this model. The timer type comes in already parsed. A tag type or
  reason is identified by the `name()` of its constant.
- `Integer.parseInt` is modelled with ASCII digits only. Java also accepts
  other Unicode decimal digits.
- `toLowerCase` is modelled on ASCII only, which enum constant names are.
- Text.ToLowerAscii: the model lower-cases the same way in every locale. Java's `toLowerCase()` uses the server's default locale, and under a Turkish locale `I` becomes a dotless `ı`, which changes the message key.
- Combat.CombatManager.Tag: the `Validate.notNull` checks at lines 67-69, 104-105, 125, 147, 154 and 171 are not modelled. Model values cannot be null, and a nullable argument (the enemy) is an `Option`, so the exception paths do not exist in the model.
- Combat.CombatManager.TimerLeftMillis: the model does not wrap `endMillis - systemMillis` around at the 64-bit `long` limit.
- CitizensNpc.CombatNpc.ResetSurvivalTime: the model does not wrap `survivalSeconds * 20L` around at the 64-bit `long` limit.
- Combat.CombatManager.GetByEnemy: entities are compared by their UUID. Bukkit's `equals` on entities compares the server's entity id, which names the same entity.
- Combat.CombatManager.TimerLeftSeconds: the model converts milliseconds to
  seconds with exact integers. Java goes through a `double`, which loses
  precision above 2^53 ms. That value is far outside any real clock.
- Combat.CombatManager.TagWithDefaultTimer: the model does not wrap
  `now + timer * 1000` around at the 64-bit `long` limit, which no real
  clock reaches.
- CitizensNpc.CombatNpc.Run: the model does not wrap the `long` tick count
  around at its minimum.
- Combat.CombatManager.GetByEnemy: when several players have the same enemy,
  the model promises only that one of them is returned. Java returns the
  first in `HashMap` iteration order, which the model does not fix.
- Combat.CombatManager.GetPlayersInCombat: the model returns the players'
  UUIDs, each once, in no promised order. Java returns `Player` objects in
  `HashSet` order.
- Player lookups (`Bukkit.getPlayer`, `getOfflinePlayer`) become the given
  set of online UUIDs, and `getByEnemy` returns the UUID.
- `getTagInformation(...).getMillisLeftCombined()` for the NPC's enemy is
  given to each run as an optional number.
- The NPC's scheduling (`runTaskTimerAsynchronously`, one run per tick) and
  its concurrency with the main thread are not modelled. Only what one run
  does is.
- `getOriginalNPC`, `getOfflineOwner` and the NPC manager's own bookkeeping
  are not modelled. Removal is the flag that `Run` returns, and
  `getOwnerId` is the `const` field `ownerId`.
- The `ICombatLogX` interface holds accessors only and is not modelled.
- Configuration and YAML loading are not modelled. Configuration values come
  in as records (`TimerConfig`, `PunishConfig`).
