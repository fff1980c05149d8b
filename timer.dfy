/**
 * How long a combat tag lasts: either the configured default, or, when the
 * timer type is PERMISSION, the lowest number N among the player's granted
 * `combatlogx.timer.<N>` permissions.
 */
module TimerPolicy {
  import opened Wrappers
  import opened Entities
  import opened Text

  const TimerPermissionPrefix: string := "combatlogx.timer."

  /** The value of `timer.default-timer` when the configuration has none. */
  const DefaultTimerSeconds: int := 10

  /** The parsed `timer.type` setting. */
  datatype TimerType = Global | Permission

  /**
   * The part of `config.yml` the timer reads: the timer type, and the
   * integer at `timer.default-timer` if there is one.
   */
  datatype TimerConfig = TimerConfig(timerType: TimerType, defaultTimer: Option<int>)

  /** `getGlobalTimerSeconds`: the configured default, 10 when unset. */
  function GlobalTimerSeconds(config: TimerConfig): (seconds: int)
    ensures config.defaultTimer.None? ==> seconds == DefaultTimerSeconds
    ensures config.defaultTimer.Some? ==> seconds == config.defaultTimer.value
  {
    config.defaultTimer.GetOr(DefaultTimerSeconds)
  }

  /**
   * What follows the prefix in each granted permission that starts with
   * `combatlogx.timer.` (collected into a set, as the stream does).
   */
  function TimerSuffixes(permissions: set<PermissionInfo>): set<string> {
    set p | p in permissions && p.granted && StartsWith(p.permission, TimerPermissionPrefix)
      :: p.permission[|TimerPermissionPrefix|..]
  }

  /**
   * A suffix is collected exactly when the player holds the granted
   * permission `combatlogx.timer.` followed by that suffix.
   */
  lemma TimerSuffixesExact(permissions: set<PermissionInfo>)
    ensures forall s :: s in TimerSuffixes(permissions) <==> PermissionInfo(TimerPermissionPrefix + s, true) in permissions
  {
    forall s
      ensures s in TimerSuffixes(permissions) <==> PermissionInfo(TimerPermissionPrefix + s, true) in permissions
    {
      var full := TimerPermissionPrefix + s;
      assert full[..|TimerPermissionPrefix|] == TimerPermissionPrefix && full[|TimerPermissionPrefix|..] == s;
      if s in TimerSuffixes(permissions) {
        var p :| p in permissions && p.granted && StartsWith(p.permission, TimerPermissionPrefix)
          && p.permission[|TimerPermissionPrefix|..] == s;
        assert p.permission == p.permission[..|TimerPermissionPrefix|] + p.permission[|TimerPermissionPrefix|..];
        assert p == PermissionInfo(full, true);
      }
    }
  }

  /** The suffixes among `suffixes` that parse as an `int`, parsed. */
  function ParsedTimers(suffixes: set<string>): set<int> {
    set s | s in suffixes && ParseInt(s).Some? :: ParseInt(s).value
  }

  ghost predicate IsLowest(x: int, values: set<int>) {
    x in values && forall v :: v in values ==> x <= v
  }

  lemma ParsedTimersAdd(done: set<string>, s: string)
    ensures ParsedTimers(done + {s})
         == ParsedTimers(done) + (if ParseInt(s).Some? then {ParseInt(s).value} else {})
  {
  }

  lemma LowestOfAdded(values: set<int>, v: int)
    ensures values == {} ==> IsLowest(v, values + {v})
    ensures forall m :: IsLowest(m, values) ==> IsLowest(if v < m then v else m, values + {v})
  {
  }

  /** Every finite set of suffixes with a parseable one has a lowest parsed value. */
  lemma {:induction false} LowestExists(suffixes: set<string>)
    ensures ParsedTimers(suffixes) == {} || exists x :: IsLowest(x, ParsedTimers(suffixes))
    decreases |suffixes|
  {
    if suffixes != {} {
      var s :| s in suffixes;
      var rest := suffixes - {s};
      LowestExists(rest);
      ParsedTimersAdd(rest, s);
      assert rest + {s} == suffixes;
      var parsed := ParseInt(s);
      if parsed.Some? {
        LowestOfAdded(ParsedTimers(rest), parsed.value);
        if ParsedTimers(rest) != {} {
          var m :| IsLowest(m, ParsedTimers(rest));
          assert IsLowest(if parsed.value < m then parsed.value else m, ParsedTimers(suffixes));
        }
      }
    }
  }

  /** The lowest value among the suffixes that parse. */
  ghost function LowestParsed(suffixes: set<string>): (m: int)
    requires ParsedTimers(suffixes) != {}
    ensures IsLowest(m, ParsedTimers(suffixes))
  {
    LowestExists(suffixes);
    var m :| IsLowest(m, ParsedTimers(suffixes));
    m
  }

  /**
   * The permission-derived timer: the lowest parseable suffix, or the global
   * default when no granted timer permission has a parseable suffix.
   */
  ghost function PermissionTimerSeconds(permissions: set<PermissionInfo>, config: TimerConfig): int {
    var suffixes := TimerSuffixes(permissions);
    if ParsedTimers(suffixes) == {} then GlobalTimerSeconds(config) else LowestParsed(suffixes)
  }

  /** `getMaxTimerSeconds`: the permission timer only when the timer type is PERMISSION. */
  ghost function MaxTimerSeconds(permissions: set<PermissionInfo>, config: TimerConfig): int {
    if config.timerType == Permission then PermissionTimerSeconds(permissions, config)
    else GlobalTimerSeconds(config)
  }

  /**
   * `getPermissionTimerSeconds`: scans the timer suffixes, keeping the lowest
   * value that parses and skipping those that do not.
   */
  method GetPermissionTimerSeconds(permissions: set<PermissionInfo>, config: TimerConfig)
    returns (seconds: int)
    ensures seconds == PermissionTimerSeconds(permissions, config)
  {
    var suffixes := TimerSuffixes(permissions);
    if suffixes == {} {
      return GlobalTimerSeconds(config);
    }
    var lowestTimer := IntMax;
    var foundValue := false;
    var pending := suffixes;
    while pending != {}
      invariant pending <= suffixes
      invariant foundValue <==> ParsedTimers(suffixes - pending) != {}
      invariant foundValue ==> IsLowest(lowestTimer, ParsedTimers(suffixes - pending))
      invariant !foundValue ==> lowestTimer == IntMax
      decreases pending
    {
      var permission :| permission in pending;
      ParsedTimersAdd(suffixes - pending, permission);
      assert suffixes - (pending - {permission}) == (suffixes - pending) + {permission};
      var value := ParseInt(permission);
      if value.Some? {
        lowestTimer := if value.value < lowestTimer then value.value else lowestTimer;
        foundValue := true;
      }
      pending := pending - {permission};
    }
    assert suffixes - pending == suffixes;
    seconds := if foundValue then lowestTimer else GlobalTimerSeconds(config);
  }

  /** `getMaxTimerSeconds` for a player under the given configuration. */
  method GetMaxTimerSeconds(player: Player, config: TimerConfig) returns (seconds: int)
    ensures seconds == MaxTimerSeconds(player.permissions, config)
    ensures config.timerType == Global ==> seconds == config.defaultTimer.GetOr(10)
  {
    if config.timerType == Permission {
      seconds := GetPermissionTimerSeconds(player.permissions, config);
    } else {
      seconds := GlobalTimerSeconds(config);
    }
  }

  /**
   * The permission timer is the lowest granted, parseable timer; with none,
   * it is the global default.
   */
  lemma PermissionTimerIsLowestGranted(permissions: set<PermissionInfo>, config: TimerConfig)
    ensures var parsed := ParsedTimers(TimerSuffixes(permissions));
      && (parsed == {} ==> PermissionTimerSeconds(permissions, config) == GlobalTimerSeconds(config))
      && (parsed != {} ==> PermissionTimerSeconds(permissions, config) in parsed)
      && (forall v :: v in parsed ==> PermissionTimerSeconds(permissions, config) <= v)
  {
  }

  /**
   * Lower timers win: once some timer permission applies, granting one
   * more permission never lengthens the timer.
   */
  lemma {:induction false} GrantingNeverLengthens(permissions: set<PermissionInfo>, extra: PermissionInfo, config: TimerConfig)
    requires ParsedTimers(TimerSuffixes(permissions)) != {}
    ensures PermissionTimerSeconds(permissions + {extra}, config) <= PermissionTimerSeconds(permissions, config)
  {
    var before := ParsedTimers(TimerSuffixes(permissions));
    var after := ParsedTimers(TimerSuffixes(permissions + {extra}));
    assert TimerSuffixes(permissions) <= TimerSuffixes(permissions + {extra});
    assert before <= after;
    assert LowestParsed(TimerSuffixes(permissions)) in after;
  }

  /**
   * Permissions that are not granted, or do not start with the timer
   * prefix, play no part: with none of the right kind the global default
   * applies.
   */
  lemma {:induction false} NoTimerPermissionMeansDefault(permissions: set<PermissionInfo>, config: TimerConfig)
    requires forall p :: p in permissions ==> !p.granted || !StartsWith(p.permission, TimerPermissionPrefix)
    ensures PermissionTimerSeconds(permissions, config) == GlobalTimerSeconds(config)
  {
    assert TimerSuffixes(permissions) == {};
  }

  /** Three granted timer permissions, one of them not a number, and the suffixes they leave. */
  const ExamplePermissions: set<PermissionInfo> :=
    {PermissionInfo("combatlogx.timer.30", true),
     PermissionInfo("combatlogx.timer.15", true),
     PermissionInfo("combatlogx.timer.bogus", true)}

  lemma ExampleSuffixes()
    ensures TimerSuffixes(ExamplePermissions) == {"30", "15", "bogus"}
  {
    assert "combatlogx.timer.30"[|TimerPermissionPrefix|..] == "30";
    assert "combatlogx.timer.15"[|TimerPermissionPrefix|..] == "15";
    assert "combatlogx.timer.bogus"[|TimerPermissionPrefix|..] == "bogus";
  }

  lemma ExampleParses()
    ensures ParsedTimers({"30", "15", "bogus"}) == {30, 15}
  {
    assert "30"[..1] == "3" && "3"[..0] == "";
    assert "15"[..1] == "1" && "1"[..0] == "";
    assert DigitsValue("30") == 30;
    assert DigitsValue("15") == 15;
    assert ParseInt("30") == Some(30);
    assert ParseInt("15") == Some(15);
    assert !IsDigit("bogus"[0]);
    assert ParseInt("bogus") == None;
  }

  /**
   * Granted `combatlogx.timer.30`,
   * `combatlogx.timer.15` and `combatlogx.timer.bogus` give 15 seconds.
   */
  lemma {:induction false} LowestOfThirtyFifteenBogus(config: TimerConfig)
    ensures PermissionTimerSeconds(ExamplePermissions, config) == 15
  {
    ExampleSuffixes();
    ExampleParses();
    assert IsLowest(15, {30, 15});
  }
}
