/** The interface commands as transformers of the user_config column, and the two
    printers of the running configuration. */
module Commands {
  import opened Base
  import opened SpeedText
  import opened UserConfig
  import opened Derivation
  import opened NameOrder

  const AUTO := "auto"
  const MTU_DEFAULT := "1500"

  /** One command in the context of an interface. `no` is the negated form; `yes` the
      answer at the prompt of split. */
  datatype Command =
    | Shutdown(no: bool)
    | SpeedTo(no: bool, speed: string)
    | MtuTo(no: bool, mtu: string)
    | DuplexTo(no: bool, full: bool)
    | Flow(send: bool, on: bool)
    | AutonegTo(no: bool, mode: string)
    | SplitTo(no: bool, yes: bool)

  /** What the grammar lets through. */
  predicate Typed(c: Command) {
    match c
    case SpeedTo(_, s) => s in [AUTO, "1000", "10000", "25000", "40000", "50000", "100000"]
    case AutonegTo(_, mode) => mode == OFF || mode == ON
    case _ => true
  }

  /** The hardware columns of the interface the commands look at. */
  datatype Hw = Hw(speeds: Option<string>, splittable: bool)

  /** is_parent_interface_split */
  predicate Locked(m: ConfigMap) { Has(m, LaneSplit, SPLIT) }

  /** strtol took all of the word, and the value is in range. */
  predicate MtuAccepted(word: string) {
    var d := if word != "" && word[0] == '+' then word[1..] else word;
    d != "" && IsNumber(d) && MIN_MTU <= Value(d) <= 9192
  }

  function Stored(m: ConfigMap, k: CfgKey): Option<string> { if k in m then Some(m[k]) else None }

  /** The pause value flowcontrol writes; "none" removes the key. */
  function NewPause(was: Option<string>, send: bool, on: bool): string {
    if send then
      if on then if was == None || was == Some(TX) then TX else RXTX
      else if was == None || was == Some(TX) then NONE else RX
    else
      if on then if was == None || was == Some(RX) then RX else RXTX
      else if was == None || was == Some(RX) then NONE else TX
  }

  function Apply(m: ConfigMap, hw: Hw, c: Command): ConfigMap {
    match c
    case Shutdown(no) => m[Admin := if no then UP else DOWN]
    case SpeedTo(no, s) =>
      if Locked(m) then m
      else if no || s == AUTO then m - {Speeds}
      else if hw.speeds.Some? && s in Tokens(hw.speeds.value) then m[Speeds := s]
      else m
    case MtuTo(no, word) =>
      if (!no && !MtuAccepted(word)) || Locked(m) then m
      else if no || word == MTU_DEFAULT then m - {Mtu}
      else m[Mtu := word]
    case DuplexTo(no, full) =>
      if Locked(m) then m else if no || full then m - {Duplex} else m[Duplex := HALF]
    case Flow(send, on) =>
      if Locked(m) then m
      else
        var value := NewPause(Stored(m, Pause), send, on);
        if value == NONE then m - {Pause} else m[Pause := value]
    case AutonegTo(no, mode) =>
      if Locked(m) then m else if no || mode == DEFAULT then m - {Autoneg} else m[Autoneg := mode]
    case SplitTo(no, yes) =>
      if !hw.splittable || !yes then m
      else if no then m - {LaneSplit} else m[LaneSplit := SPLIT]
  }

  function Entered(m: ConfigMap, hw: Hw, cs: seq<Command>): ConfigMap {
    if cs == [] then m else Apply(Entered(m, hw, cs[..|cs| - 1]), hw, cs[|cs| - 1])
  }

  /** What the daemon reads from one column is what it reads from the other, but for one
      change; whatever the hardware speeds and the base MTU. */
  ghost predicate ReadAs(now: ConfigMap, was: ConfigMap, change: (int, Settings) -> Settings) {
    forall hwSpeeds, baseMtu ::
      RowSettings(now, hwSpeeds, baseMtu) == change(baseMtu, RowSettings(was, hwSpeeds, baseMtu))
  }

  /* ---------- the commands as they are written ---------- */

  /** cli_intf_shutdown, its part on the Interface row. */
  method CliIntfShutdown(userConfig: ConfigMap, hw: Hw, no: bool) returns (m: ConfigMap)
    ensures m == Apply(userConfig, hw, Shutdown(no))
    ensures ReadAs(m, userConfig, (_: int, s: Settings) => s.(admin := if no then AdminUp else AdminDown))
  {
    m := userConfig;
    if no { m := m[Admin := UP]; } else { m := m[Admin := DOWN]; }
  }

  /** cli_intf_mtu */
  method CliIntfMtu(userConfig: ConfigMap, hw: Hw, no: bool, word: string) returns (m: ConfigMap)
    ensures m == Apply(userConfig, hw, MtuTo(no, word))
    ensures MtuRefused(userConfig, no, word) ==> m == userConfig
    ensures !MtuRefused(userConfig, no, word) ==>
      ReadAs(m, userConfig,
             (b: int, s: Settings) => s.(mtu := if no || word == MTU_DEFAULT then 0 else TakenMtu(word, b)))
  {
    m := userConfig;
    if !no {
      if !MtuAccepted(word) { return; }
    }
    if Locked(userConfig) { return; }
    if no {
      m := m - {Mtu};
    } else if word == MTU_DEFAULT {
      m := m - {Mtu};
    } else {
      m := m[Mtu := word];
    }
  }

  /** cli_intf_duplex */
  method CliIntfDuplex(userConfig: ConfigMap, hw: Hw, no: bool, full: bool) returns (m: ConfigMap)
    ensures m == Apply(userConfig, hw, DuplexTo(no, full))
    ensures Locked(userConfig) ==> m == userConfig
    ensures !Locked(userConfig) ==>
      ReadAs(m, userConfig, (_: int, s: Settings) => s.(duplex := if no || full then DuplexFull else DuplexHalf))
  {
    m := userConfig;
    if Locked(userConfig) { return; }
    if no || full { m := m - {Duplex}; } else { m := m[Duplex := HALF]; }
  }

  function EnteredMode(no: bool, mode: string): AutonegCfg {
    if no then AutonegDefault else if mode == OFF then AutonegOff else AutonegOn
  }

  /** cli_intf_autoneg */
  method CliIntfAutoneg(userConfig: ConfigMap, hw: Hw, no: bool, mode: string) returns (m: ConfigMap)
    ensures m == Apply(userConfig, hw, AutonegTo(no, mode))
    ensures Locked(userConfig) ==> m == userConfig
    ensures !Locked(userConfig) && Typed(AutonegTo(no, mode)) ==>
      ReadAs(m, userConfig, (_: int, s: Settings) => s.(autoneg := EnteredMode(no, mode)))
  {
    m := userConfig;
    if Locked(userConfig) { return; }
    if no {
      m := m - {Autoneg};
    } else if mode == DEFAULT {
      m := m - {Autoneg};
    } else {
      m := m[Autoneg := mode];
    }
  }

  /** cli_intf_split: the edit is aborted unless the interface can be split and the prompt
      is answered with yes. */
  method CliIntfSplit(userConfig: ConfigMap, hw: Hw, no: bool, yes: bool) returns (m: ConfigMap)
    ensures m == Apply(userConfig, hw, SplitTo(no, yes))
    ensures !(hw.splittable && yes) ==> m == userConfig
    ensures hw.splittable && yes ==>
      ReadAs(m, userConfig, (_: int, s: Settings) => s.(lane := if no then NoSplit else Split))
  {
    var edited := userConfig;
    if no { edited := edited - {LaneSplit}; } else { edited := edited[LaneSplit := SPLIT]; }
    var proceed := false;
    if hw.splittable { proceed := yes; }
    m := if proceed then edited else userConfig;
  }

  /** cli_intf_speed */
  method CliIntfSpeed(userConfig: ConfigMap, hw: Hw, no: bool, speed: string) returns (m: ConfigMap)
    ensures m == Apply(userConfig, hw, SpeedTo(no, speed))
  {
    m := userConfig;
    if Locked(userConfig) { return; }
    if no {
      m := m - {Speeds};
    } else if speed == AUTO {
      m := m - {Speeds};
    } else if hw.speeds != None {
      var words := Tokens(hw.speeds.value);
      var supported := false;
      var i := 0;
      while i < |words| && !supported
        invariant 0 <= i <= |words| && (supported <==> speed in words[..i])
      {
        supported := words[i] == speed;
        assert words[..i + 1] == words[..i] + [words[i]];
        i := i + 1;
      }
      assert supported || words[..i] == words;
      if supported { m := m[Speeds := speed]; }
    }
  }

  /** cli_intf_flowcontrol */
  method CliIntfFlowcontrol(userConfig: ConfigMap, hw: Hw, send: bool, on: bool) returns (m: ConfigMap)
    ensures m == Apply(userConfig, hw, Flow(send, on))
    ensures m - {Pause} == userConfig - {Pause} && (Locked(userConfig) ==> m == userConfig)
    ensures !Locked(userConfig) ==> (ParsePause(m) == Turned(ParsePause(userConfig), send, on)
                                     <==> Pause !in userConfig || userConfig[Pause] in [RX, TX, RXTX])
  {
    m := userConfig;
    if Locked(userConfig) { return; }
    var stored := if Pause in userConfig then Some(userConfig[Pause]) else None;
    var value;
    if send {
      if on {
        if stored == None || stored == Some(TX) { value := TX; } else { value := RXTX; }
      } else {
        if stored == None || stored == Some(TX) { value := NONE; } else { value := RX; }
      }
    } else {
      if on {
        if stored == None || stored == Some(RX) { value := RX; } else { value := RXTX; }
      } else {
        if stored == None || stored == Some(RX) { value := NONE; } else { value := TX; }
      }
    }
    if value == NONE { m := m - {Pause}; } else { m := m[Pause := value]; }
  }

  /* ---------- what the commands mean to the daemon ---------- */

  /** shutdown sets the admin setting and nothing else, also of a split interface. */
  lemma ShutdownMeans(m: ConfigMap, hw: Hw, no: bool, hwSpeeds: string, baseMtu: int)
    ensures RowSettings(Apply(m, hw, Shutdown(no)), hwSpeeds, baseMtu)
         == RowSettings(m, hwSpeeds, baseMtu).(admin := if no then AdminUp else AdminDown)
  {
  }

  /** The MTU the daemon takes from a stored word. */
  function TakenMtu(word: string, baseMtu: int): int {
    if IsNumber(word) && MIN_MTU <= Atoi(word) <= baseMtu then Atoi(word) else -1
  }

  predicate MtuRefused(m: ConfigMap, no: bool, word: string) { Locked(m) || (!no && !MtuAccepted(word)) }

  /** mtu is refused and changes nothing, or sets the MTU and nothing else. */
  lemma MtuMeans(m: ConfigMap, hw: Hw, no: bool, word: string, hwSpeeds: string, baseMtu: int)
    ensures MtuRefused(m, no, word) ==> Apply(m, hw, MtuTo(no, word)) == m
    ensures !MtuRefused(m, no, word) ==>
      RowSettings(Apply(m, hw, MtuTo(no, word)), hwSpeeds, baseMtu)
      == RowSettings(m, hwSpeeds, baseMtu).(mtu := if no || word == MTU_DEFAULT then 0 else TakenMtu(word, baseMtu))
  {
  }

  /** The daemon takes an accepted word at its value exactly when it has no plus sign and
      does not exceed the base MTU; otherwise the interface gets an invalid MTU, although
      the command has succeeded. */
  lemma AcceptedMtuIsTaken(word: string, baseMtu: int)
    requires MtuAccepted(word)
    ensures TakenMtu(word, baseMtu) != -1 <==> word[0] != '+' && Value(word) <= baseMtu
    ensures TakenMtu(word, baseMtu) != -1 ==> TakenMtu(word, baseMtu) == Value(word)
  {
    if word[0] == '+' { assert !IsDigit(word[0]); }
  }

  /** The range in numbers. */
  lemma MtuRange(n: nat)
    ensures MtuAccepted(Decimal(n)) <==> 576 <= n <= 9192
  {
    DecimalRoundTrip(n);
    assert !IsDigit('+');
  }

  /** The word that removes the entry denotes the MTU the daemon then publishes. */
  lemma DefaultWord()
    ensures IsNumber(MTU_DEFAULT) && Value(MTU_DEFAULT) == 1500 == DEFAULT_MTU && MtuAccepted(MTU_DEFAULT)
  {
    assert "150"[..2] == "15" && "15"[..1] == "1" && MTU_DEFAULT[..3] == "150";
    assert Value("1") == 1 && Value("15") == 15 && Value("150") == 150;
    assert Value(MTU_DEFAULT) == Value("150") * 10;
  }

  const PLUS := "+9000"

  /** The command takes +9000, the daemon does not, whatever the base MTU. */
  lemma PlusIsLost(baseMtu: int)
    ensures MtuAccepted(PLUS) && TakenMtu(PLUS, baseMtu) == -1
  {
    JumboAccepted();
    assert PLUS[1..] == JUMBO && PLUS[0] == '+' && JUMBO[0] != '+';
    AcceptedMtuIsTaken(PLUS, baseMtu);
  }

  /** duplex sets the duplex mode and nothing else. */
  lemma DuplexMeans(m: ConfigMap, hw: Hw, no: bool, full: bool, hwSpeeds: string, baseMtu: int)
    ensures Locked(m) ==> Apply(m, hw, DuplexTo(no, full)) == m
    ensures !Locked(m) ==>
      RowSettings(Apply(m, hw, DuplexTo(no, full)), hwSpeeds, baseMtu)
      == RowSettings(m, hwSpeeds, baseMtu).(duplex := if no || full then DuplexFull else DuplexHalf)
  {
  }

  /** autonegotiation sets the negotiation mode and nothing else; its negation, the default. */
  lemma AutonegMeans(m: ConfigMap, hw: Hw, no: bool, mode: string, hwSpeeds: string, baseMtu: int)
    requires Typed(AutonegTo(no, mode))
    ensures Locked(m) ==> Apply(m, hw, AutonegTo(no, mode)) == m
    ensures !Locked(m) ==>
      RowSettings(Apply(m, hw, AutonegTo(no, mode)), hwSpeeds, baseMtu)
      == RowSettings(m, hwSpeeds, baseMtu).(autoneg := EnteredMode(no, mode))
  {
  }

  /** split sets the lanes and nothing else, on an interface that can be split and with the
      prompt answered; then it is undone by its negation. */
  lemma SplitMeans(m: ConfigMap, hw: Hw, no: bool, yes: bool, hwSpeeds: string, baseMtu: int)
    ensures !(hw.splittable && yes) ==> Apply(m, hw, SplitTo(no, yes)) == m
    ensures hw.splittable && yes ==>
      RowSettings(Apply(m, hw, SplitTo(no, yes)), hwSpeeds, baseMtu)
      == RowSettings(m, hwSpeeds, baseMtu).(lane := if no then NoSplit else Split)
    ensures hw.splittable && LaneSplit !in m ==> Apply(Apply(m, hw, SplitTo(false, true)), hw, SplitTo(true, true)) == m
  {
  }

  lemma ListedSpeedSupported(speed: string, hwSpeeds: string)
    requires speed in Tokens(hwSpeeds) && WellFormed(hwSpeeds)
    ensures Supported(speed, hwSpeeds) && SpeedList(speed) == [Atoi(speed)]
  {
    var i :| 0 <= i < |Tokens(hwSpeeds)| && Tokens(hwSpeeds)[i] == speed;
    assert SpeedList(hwSpeeds)[i] == Atoi(speed);
    TokensNonEmpty(hwSpeeds);
    assert ',' !in speed;
    SingleToken(speed);
  }

  lemma SpeedSettings(m: ConfigMap, m': ConfigMap, hwSpeeds: string, baseMtu: int)
    requires m' == m - {Speeds} || (Speeds in m' && m' == m[Speeds := m'[Speeds]])
    ensures var s, s' := RowSettings(m, hwSpeeds, baseMtu), RowSettings(m', hwSpeeds, baseMtu);
      s' == s.(speeds := s'.speeds, speedsValid := s'.speedsValid)
  {
  }

  /** speed sets the speed list and nothing else, and what it stores the daemon takes,
      provided it can read the hardware list. */
  lemma SpeedMeans(m: ConfigMap, hw: Hw, no: bool, speed: string, hwSpeeds: string, baseMtu: int)
    requires hw.speeds == Some(hwSpeeds) && !Locked(m)
    ensures var s := RowSettings(m, hwSpeeds, baseMtu);
      var s' := RowSettings(Apply(m, hw, SpeedTo(no, speed)), hwSpeeds, baseMtu);
      && (no || speed == AUTO ==> s' == s.(speeds := [], speedsValid := true))
      && (!no && speed != AUTO && speed in Tokens(hwSpeeds) && WellFormed(hwSpeeds) ==>
            s' == s.(speeds := [Atoi(speed)], speedsValid := true))
      && (!no && speed != AUTO && speed !in Tokens(hwSpeeds) ==> s' == s)
  {
    hide ParseMtu, ParseAdmin, ParsePause, ParseLane, ParseDuplex, ParseAutoneg, Supported, SpeedList, Tokens, Locked;
    var m' := Apply(m, hw, SpeedTo(no, speed));
    if no || speed == AUTO {
      SpeedSettings(m, m', hwSpeeds, baseMtu);
    } else if speed in Tokens(hwSpeeds) {
      SpeedSettings(m, m', hwSpeeds, baseMtu);
      if WellFormed(hwSpeeds) { ListedSpeedSupported(speed, hwSpeeds); }
    }
  }

  /* ---------- the pause value ---------- */

  /** What flowcontrol is meant to do with one of the two directions. */
  function Turned(p: PauseMode, send: bool, on: bool): PauseMode {
    var rx, tx := p == PauseRx || p == PauseRxTx, p == PauseTx || p == PauseRxTx;
    Both(if send then rx else on, if send then on else tx)
  }

  function Both(rx: bool, tx: bool): PauseMode {
    if rx && tx then PauseRxTx else if tx then PauseTx else if rx then PauseRx else PauseNone
  }

  /** flowcontrol changes the direction named and only that one exactly when what is
      stored is nothing or one of rx, tx, rxtx: a stored "none" or any other text counts
      as both directions on. */
  lemma FlowTurnsOneDirection(m: ConfigMap, hw: Hw, send: bool, on: bool)
    requires !Locked(m)
    ensures ParsePause(Apply(m, hw, Flow(send, on))) == Turned(ParsePause(m), send, on)
       <==> Pause !in m || m[Pause] in [RX, TX, RXTX]
  {
  }

  /** Turning receive off where "none" is stored turns send on. */
  lemma FlowOnStoredNone(hw: Hw)
    ensures var m := map[Pause := NONE]; var m' := Apply(m, hw, Flow(false, false));
      ParsePause(m) == PauseNone && m' == map[Pause := TX] && ParsePause(m') == PauseTx
  {
    assert NONE[0] != RX[0] && NONE[0] != TX[0];
  }

  /** The last setting of a direction that was entered while the interface was not split. */
  function LastFlow(hw: Hw, cs: seq<Command>, send: bool): bool {
    if cs == [] then false
    else
      var before, c := cs[..|cs| - 1], cs[|cs| - 1];
      if c.Flow? && c.send == send && !Locked(Entered(map[], hw, before)) then c.on
      else LastFlow(hw, before, send)
  }

  /** After any commands the stored value is the pair of the last receive and send settings. */
  lemma {:induction false} PauseIsLastPair(hw: Hw, cs: seq<Command>)
    ensures var m := Entered(map[], hw, cs);
      && (Pause in m ==> m[Pause] in [RX, TX, RXTX])
      && ParsePause(m) == Both(LastFlow(hw, cs, false), LastFlow(hw, cs, true))
  {
    if cs != [] {
      var before, c := cs[..|cs| - 1], cs[|cs| - 1];
      PauseIsLastPair(hw, before);
      if c.Flow? && !Locked(Entered(map[], hw, before)) {
        FlowTurnsOneDirection(Entered(map[], hw, before), hw, c.send, c.on);
      }
    }
  }

  /* ---------- what commands can leave in the column ---------- */

  predicate Storable(k: CfgKey, value: string, hw: Hw) {
    match k
    case Admin => value == UP || value == DOWN
    case Speeds => hw.speeds.Some? && value in Tokens(hw.speeds.value) && value != AUTO
    case Mtu => MtuAccepted(value) && value != MTU_DEFAULT
    case Duplex => value == HALF
    case Pause => value in [RX, TX, RXTX]
    case Autoneg => value == OFF || value == ON
    case LaneSplit => value == SPLIT && hw.splittable
    case Other(_) => false
  }

  ghost predicate FromCommands(m: ConfigMap, hw: Hw) { forall k :: k in m ==> Storable(k, m[k], hw) }

  lemma ApplyStorable(m: ConfigMap, hw: Hw, c: Command)
    requires FromCommands(m, hw) && Typed(c)
    ensures FromCommands(Apply(m, hw, c), hw)
  {
  }

  lemma {:induction false} EnteredStorable(hw: Hw, cs: seq<Command>)
    requires forall c :: c in cs ==> Typed(c)
    ensures FromCommands(Entered(map[], hw, cs), hw)
  {
    if cs != [] {
      EnteredStorable(hw, cs[..|cs| - 1]);
      ApplyStorable(Entered(map[], hw, cs[..|cs| - 1]), hw, cs[|cs| - 1]);
    }
  }

  /* ---------- printing ---------- */

  function When(b: bool, c: Command): seq<Command> { if b then [c] else [] }

  function FlowLines(value: string): seq<Command> {
    if value == NONE then []
    else if value == RX then [Flow(false, true)]
    else if value == TX then [Flow(true, true)]
    else [Flow(false, true), Flow(true, true)]
  }

  /** The lines a printer derives from one key. */
  function KeyLines(m: ConfigMap, k: CfgKey): seq<Command> {
    if k !in m then []
    else
      match k
      case Admin => When(m[k] == UP, Shutdown(true))
      case Speeds => When(m[k] != AUTO, SpeedTo(false, m[k]))
      case Mtu => When(m[k] != MTU_DEFAULT, MtuTo(false, m[k]))
      case Duplex => When(m[k] != FULL, DuplexTo(false, false))
      case Pause => FlowLines(m[k])
      case Autoneg => When(m[k] != DEFAULT && m[k] != ON, AutonegTo(false, m[k]))
      case LaneSplit => When(m[k] == SPLIT, SplitTo(false, true))
      case Other(_) => []
  }

  function LinesOf(m: ConfigMap, ks: seq<CfgKey>): seq<Command> {
    if ks == [] then [] else LinesOf(m, ks[..|ks| - 1]) + KeyLines(m, ks[|ks| - 1])
  }

  /** The keys a split interface refuses to change. */
  const LINK_KEYS := [Speeds, Mtu, Duplex, Pause, Autoneg]
  const FRONT_KEYS := [Speeds, Mtu, Duplex, Pause]

  /** show running-config interface prints split last, */
  function Lines(m: ConfigMap): seq<Command> { KeyLines(m, Admin) + LinesOf(m, LINK_KEYS) + KeyLines(m, LaneSplit) }

  predicate PauseShown(m: ConfigMap) { Pause in m && m[Pause] != NONE }

  /** With the name of an interface given, the same printer stops behind the flowcontrol
      lines, if there are any. */
  function FilteredLines(m: ConfigMap): seq<Command> {
    if PauseShown(m) then KeyLines(m, Admin) + LinesOf(m, FRONT_KEYS) else Lines(m)
  }

  /** show running-config ahead of speed and the others. */
  function SplitFirst(m: ConfigMap): seq<Command> {
    KeyLines(m, Admin) + KeyLines(m, LaneSplit) + LinesOf(m, LINK_KEYS)
  }

  /** What show running-config looks at for one interface: its name and kind, the column
      of its split parent, and its own. */
  datatype Context = Context(name: Name, kind: Kind, parent: Option<ConfigMap>, column: ConfigMap)

  /** bridge_normal and the children of a parent that is not split are skipped, and of a
      loopback only the header is printed. */
  predicate Hidden(x: Context) {
    x.name == BRIDGE || (x.parent.Some? && !Locked(x.parent.value)) || x.kind == Loopback
  }

  function ContextLines(x: Context): seq<Command> { if Hidden(x) then [] else SplitFirst(x.column) }

  datatype Output = Header | Line(command: Command) | Exit

  /** The header appears with the first line. */
  function Printed(lines: seq<Command>): seq<Output> {
    if lines == [] then [] else [Header] + seq(|lines|, i requires 0 <= i < |lines| => Line(lines[i]))
  }

  /** PRINT_INT_HEADER_IN_SHOW_RUN and the line behind it, if there is something to say. */
  method PrintIf(b: bool, c: Command, bPrinted: bool, out: seq<Output>, ghost done: seq<Command>)
    returns (bPrinted': bool, out': seq<Output>, ghost done': seq<Command>)
    requires out == Printed(done) && bPrinted == (done != [])
    ensures done' == done + When(b, c) && out' == Printed(done') && bPrinted' == (done' != [])
  {
    bPrinted', out', done' := bPrinted, out, done;
    if b {
      if !bPrinted { bPrinted', out' := true, out + [Header]; }
      out' := out' + [Line(c)];
      done' := done + [c];
    }
  }

  method PrintFlow(m: ConfigMap, bPrinted: bool, out: seq<Output>, ghost done: seq<Command>)
    returns (bPrinted': bool, out': seq<Output>, ghost done': seq<Command>)
    requires out == Printed(done) && bPrinted == (done != [])
    ensures done' == done + KeyLines(m, Pause) && out' == Printed(done') && bPrinted' == (done' != [])
  {
    var shown := Pause in m && m[Pause] != NONE;
    bPrinted', out', done' := PrintIf(shown && m[Pause] != TX, Flow(false, true), bPrinted, out, done);
    bPrinted', out', done' := PrintIf(shown && m[Pause] != RX, Flow(true, true), bPrinted', out', done');
  }

  lemma LinesNext(m: ConfigMap, ks: seq<CfgKey>, k: CfgKey)
    ensures LinesOf(m, ks + [k]) == LinesOf(m, ks) + KeyLines(m, k)
  {
    assert (ks + [k])[..|ks|] == ks;
  }

  lemma FrontLinesUnrolled(m: ConfigMap)
    ensures LinesOf(m, FRONT_KEYS)
         == KeyLines(m, Speeds) + KeyLines(m, Mtu) + KeyLines(m, Duplex) + KeyLines(m, Pause)
    ensures LinesOf(m, LINK_KEYS) == LinesOf(m, FRONT_KEYS) + KeyLines(m, Autoneg)
  {
    LinesNext(m, [], Speeds);
    LinesNext(m, [Speeds], Mtu);
    LinesNext(m, [Speeds, Mtu], Duplex);
    LinesNext(m, [Speeds, Mtu, Duplex], Pause);
    LinesNext(m, FRONT_KEYS, Autoneg);
    assert [] + [Speeds] == [Speeds] && LinesOf(m, []) + KeyLines(m, Speeds) == KeyLines(m, Speeds);
    assert [Speeds] + [Mtu] == [Speeds, Mtu] && [Speeds, Mtu] + [Duplex] == [Speeds, Mtu, Duplex];
    assert [Speeds, Mtu, Duplex] + [Pause] == FRONT_KEYS && FRONT_KEYS + [Autoneg] == LINK_KEYS;
  }

  method PrintText(m: ConfigMap, k: CfgKey, bPrinted: bool, out: seq<Output>, ghost done: seq<Command>)
    returns (bPrinted': bool, out': seq<Output>, ghost done': seq<Command>)
    requires out == Printed(done) && bPrinted == (done != []) && k in [Speeds, Mtu, Duplex, Autoneg]
    ensures done' == done + KeyLines(m, k) && out' == Printed(done') && bPrinted' == (done' != [])
  {
    bPrinted', out', done' := bPrinted, out, done;
    if k !in m { return; }
    var value := m[k];
    match k
    case Speeds => bPrinted', out', done' := PrintIf(value != AUTO, SpeedTo(false, value), bPrinted, out, done);
    case Mtu => bPrinted', out', done' := PrintIf(value != MTU_DEFAULT, MtuTo(false, value), bPrinted, out, done);
    case Duplex => bPrinted', out', done' := PrintIf(value != FULL, DuplexTo(false, false), bPrinted, out, done);
    case _ =>
      bPrinted', out', done' := PrintIf(value != DEFAULT && value != ON, AutonegTo(false, value), bPrinted, out, done);
  }

  method PrintFront(m: ConfigMap, bPrinted: bool, out: seq<Output>, ghost done: seq<Command>)
    returns (bPrinted': bool, out': seq<Output>, ghost done': seq<Command>)
    requires out == Printed(done) && bPrinted == (done != [])
    ensures done' == done + LinesOf(m, FRONT_KEYS) && out' == Printed(done') && bPrinted' == (done' != [])
  {
    hide Printed, KeyLines, LinesOf;
    FrontLinesUnrolled(m);
    bPrinted', out', done' := PrintText(m, Speeds, bPrinted, out, done);
    bPrinted', out', done' := PrintText(m, Mtu, bPrinted', out', done');
    bPrinted', out', done' := PrintText(m, Duplex, bPrinted', out', done');
    bPrinted', out', done' := PrintFlow(m, bPrinted', out', done');
  }

  /** The user_config part of cli_show_run_interface_exec for one interface; filtered says
      whether the command named it, hasPort whether a Port row of its name makes the header
      appear anyway. */
  method ShowRunInterface(m: ConfigMap, filtered: bool, hasPort: bool) returns (out: seq<Output>)
    ensures out == if filtered && PauseShown(m) then Printed(FilteredLines(m))
                   else if Lines(m) == [] then (if hasPort then [Header, Exit] else [])
                   else Printed(Lines(m)) + [Exit]
  {
    hide Printed, KeyLines, LinesOf;
    FrontLinesUnrolled(m);
    SwitchLines(m);
    var bPrinted := false;
    ghost var done: seq<Command> := [];
    NothingPrinted();
    bPrinted, out, done := PrintIf(Has(m, Admin, UP), Shutdown(true), false, [], []);
    bPrinted, out, done := PrintFront(m, bPrinted, out, done);
    assert done == KeyLines(m, Admin) + LinesOf(m, FRONT_KEYS);
    if PauseShown(m) && filtered { return; }
    bPrinted, out, done := PrintText(m, Autoneg, bPrinted, out, done);
    bPrinted, out, done := PrintIf(Has(m, LaneSplit, SPLIT), SplitTo(false, true), bPrinted, out, done);
    assert done == Lines(m);
    if hasPort && !bPrinted {
      bPrinted, out := true, out + [Header];
    }
    if bPrinted { out := out + [Exit]; }
  }

  lemma NothingPrinted()
    ensures Printed([]) == []
  {
  }

  lemma SwitchLines(m: ConfigMap)
    ensures [] + When(Has(m, Admin, UP), Shutdown(true)) == KeyLines(m, Admin)
    ensures When(Has(m, LaneSplit, SPLIT), SplitTo(false, true)) == KeyLines(m, LaneSplit)
  {
  }

  /** Nothing of the column is printed exactly for bridge_normal, loopbacks and the children
      of a parent whose column does not say split; any other column is printed in full. */
  lemma HiddenExactly(x: Context)
    ensures var shown := x.name != "bridge_normal" && x.kind != Loopback
                         && (x.parent.Some? ==> Has(x.parent.value, LaneSplit, "split"));
      ContextLines(x) == if shown then SplitFirst(x.column) else []
  {
  }

  /** A loopback that is shown, and a sub-interface, have their header printed in any case. */
  predicate HeaderAnyway(x: Context) {
    x.name != BRIDGE && (x.parent.Some? ==> Locked(x.parent.value)) && (x.kind == Loopback || x.kind == VlanSub)
  }

  /** The user_config part of vtysh_intf_context_clientcallback. */
  method ShowContext(x: Context) returns (out: seq<Output>)
    ensures out == if HeaderAnyway(x) && ContextLines(x) == [] then [Header] else Printed(ContextLines(x))
  {
    hide Printed, KeyLines, LinesOf;
    NothingPrinted();
    if x.name == BRIDGE { return []; }
    if x.parent != None && !Locked(x.parent.value) { return []; }
    if x.kind == Loopback { return [Header]; }
    var m := x.column;
    var bPrinted;
    ghost var done: seq<Command>;
    SwitchLines(m);
    FrontLinesUnrolled(m);
    bPrinted, out, done := PrintIf(Has(m, Admin, UP), Shutdown(true), false, [], []);
    bPrinted, out, done := PrintIf(Has(m, LaneSplit, SPLIT), SplitTo(false, true), bPrinted, out, done);
    assert done == KeyLines(m, Admin) + KeyLines(m, LaneSplit);
    bPrinted, out, done := PrintFront(m, bPrinted, out, done);
    assert done == KeyLines(m, Admin) + KeyLines(m, LaneSplit) + LinesOf(m, FRONT_KEYS);
    bPrinted, out, done := PrintText(m, Autoneg, bPrinted, out, done);
    assert done == SplitFirst(m);
    if x.kind == VlanSub && !bPrinted { out := [Header]; }
  }

  /* ---------- replaying ---------- */

  /** The stored map without what the printer leaves out: admin down and autoneg on. */
  function Essential(m: ConfigMap): ConfigMap {
    m - (if Has(m, Admin, DOWN) then {Admin} else {}) - (if Has(m, Autoneg, ON) then {Autoneg} else {})
  }

  lemma {:induction false} EnteredAppend(m: ConfigMap, hw: Hw, a: seq<Command>, b: seq<Command>)
    ensures Entered(m, hw, a + b) == Entered(Entered(m, hw, a), hw, b)
    decreases |b|
  {
    if b == [] {
      assert a + b == a;
    } else {
      assert (a + b)[..|a + b| - 1] == a + b[..|b| - 1];
      EnteredAppend(m, hw, a, b[..|b| - 1]);
    }
  }

  lemma EnteredOne(m: ConfigMap, hw: Hw, c: Command)
    ensures Entered(m, hw, [c]) == Apply(m, hw, c)
  {
    assert [c][..0] == [];
  }

  /** The essential entry of one key, if there is one. */
  function Entry(m: ConfigMap, k: CfgKey): ConfigMap { if k in Essential(m) then map[k := m[k]] else map[] }

  lemma WordsDiffer()
    ensures HALF != FULL && RXTX != NONE && RX != TX
  {
    assert HALF[0] != FULL[0] && RXTX[0] != NONE[0] && RX[0] != TX[0];
  }

  lemma FlowOn(n: ConfigMap, hw: Hw)
    requires !Locked(n) && Pause !in n
    ensures Apply(n, hw, Flow(false, true)) == n[Pause := RX]
    ensures Apply(n, hw, Flow(true, true)) == n[Pause := TX]
    ensures Apply(n[Pause := RX], hw, Flow(true, true)) == n[Pause := RXTX]
  {
    WordsDiffer();
  }

  lemma ReplayFlow(n: ConfigMap, hw: Hw, value: string)
    requires value in [RX, TX, RXTX] && !Locked(n) && Pause !in n
    ensures Entered(n, hw, FlowLines(value)) == n[Pause := value]
  {
    hide Apply;
    WordsDiffer();
    FlowOn(n, hw);
    EnteredOne(n, hw, Flow(value == TX, true));
    if value == RXTX {
      EnteredAppend(n, hw, [Flow(false, true)], [Flow(true, true)]);
      EnteredOne(n[Pause := RX], hw, Flow(true, true));
      assert [Flow(false, true)] + [Flow(true, true)] == FlowLines(value);
    }
  }

  lemma ReplayLine(m: ConfigMap, hw: Hw, n: ConfigMap, k: CfgKey)
    requires k in m && Storable(k, m[k], hw) && k != Pause && k !in n && !Locked(n)
    ensures if k in Essential(m) then |KeyLines(m, k)| == 1 && Apply(n, hw, KeyLines(m, k)[0]) == n[k := m[k]]
            else KeyLines(m, k) == []
  {
    WordsDiffer();
  }

  /** Replaying the lines of one key on a map without it restores its essential entry. */
  lemma ReplayKey(m: ConfigMap, hw: Hw, n: ConfigMap, k: CfgKey)
    requires FromCommands(m, hw) && k !in n && !Locked(n)
    ensures Entered(n, hw, KeyLines(m, k)) == n + Entry(m, k)
  {
    hide Apply, FlowLines;
    if k in m {
      assert Storable(k, m[k], hw);
      if k == Pause {
        ReplayFlow(n, hw, m[k]);
      } else {
        ReplayLine(m, hw, n, k);
        if k in Essential(m) { EnteredOne(n, hw, KeyLines(m, k)[0]); }
      }
    }
  }

  function Entries(m: ConfigMap, ks: seq<CfgKey>): ConfigMap {
    if ks == [] then map[] else Entries(m, ks[..|ks| - 1]) + Entry(m, ks[|ks| - 1])
  }

  lemma {:induction false} EntriesHave(m: ConfigMap, ks: seq<CfgKey>, k: CfgKey)
    ensures k in Entries(m, ks) <==> k in ks && k in Essential(m)
    ensures k in Entries(m, ks) ==> Entries(m, ks)[k] == m[k]
  {
    if ks != [] {
      EntriesHave(m, ks[..|ks| - 1], k);
      assert k in ks <==> k in ks[..|ks| - 1] || k == ks[|ks| - 1];
    }
  }

  lemma NothingEntered(n: ConfigMap, hw: Hw)
    ensures Entered(n, hw, []) == n
  {
  }

  lemma NoEntries(m: ConfigMap, n: ConfigMap)
    ensures n + Entries(m, []) == n
  {
  }

  lemma EntriesNext(m: ConfigMap, n: ConfigMap, ks: seq<CfgKey>)
    requires ks != []
    ensures n + Entries(m, ks[..|ks| - 1]) + Entry(m, ks[|ks| - 1]) == n + Entries(m, ks)
  {
    hide Entry;
  }

  /** The keys replayed so far neither lock the interface nor touch the next one. */
  lemma StillFree(m: ConfigMap, n: ConfigMap, front: seq<CfgKey>, k: CfgKey)
    requires !Locked(n) && k !in front && LaneSplit !in front && k !in n
    ensures !Locked(n + Entries(m, front)) && k !in n + Entries(m, front)
  {
    hide Entries, Essential;
    EntriesHave(m, front, k);
    EntriesHave(m, front, LaneSplit);
  }

  lemma {:induction false} ReplayKeys(m: ConfigMap, hw: Hw, n: ConfigMap, ks: seq<CfgKey>)
    requires FromCommands(m, hw) && !Locked(n) && Distinct(ks) && LaneSplit !in ks && forall k <- ks :: k !in n
    ensures Entered(n, hw, LinesOf(m, ks)) == n + Entries(m, ks)
  {
    hide Apply, KeyLines, FromCommands, Entry, Entered, Entries, Essential, Locked;
    if ks == [] {
      NothingEntered(n, hw);
      NoEntries(m, n);
    } else {
      var front, k := ks[..|ks| - 1], ks[|ks| - 1];
      StillFree(m, n, front, k);
      ReplayKeys(m, hw, n, front);
      EnteredAppend(n, hw, LinesOf(m, front), KeyLines(m, k));
      ReplayKey(m, hw, n + Entries(m, front), k);
      EntriesNext(m, n, ks);
    }
  }

  lemma EssentialKeys(m: ConfigMap, hw: Hw)
    requires FromCommands(m, hw)
    ensures Essential(m).Keys <= m.Keys && forall k :: k in Essential(m) ==> Essential(m)[k] == m[k]
    ensures forall k :: k in Essential(m) ==> k == Admin || k == LaneSplit || k in LINK_KEYS
  {
    forall k | k in Essential(m) ensures k == Admin || k == LaneSplit || k in LINK_KEYS {
      assert Storable(k, m[k], hw);
    }
  }

  lemma EssentialEntries(m: ConfigMap, hw: Hw)
    requires FromCommands(m, hw)
    ensures Entry(m, Admin) + Entries(m, LINK_KEYS) + Entry(m, LaneSplit) == Essential(m)
  {
    hide Entries, Essential, FromCommands;
    EssentialKeys(m, hw);
    forall k ensures k in Entries(m, LINK_KEYS) <==> k in LINK_KEYS && k in Essential(m)
      ensures k in Entries(m, LINK_KEYS) ==> Entries(m, LINK_KEYS)[k] == m[k]
    {
      EntriesHave(m, LINK_KEYS, k);
    }
  }

  /** Replaying the printed lines from nothing gives the stored map back, but for admin
      down and autoneg on. */
  lemma ReplayRestores(m: ConfigMap, hw: Hw)
    requires FromCommands(m, hw)
    ensures Entered(map[], hw, Lines(m)) == Essential(m)
  {
    ReplayKey(m, hw, map[], Admin);
    assert map[] + Entry(m, Admin) == Entry(m, Admin);
    EnteredAppend(map[], hw, KeyLines(m, Admin), LinesOf(m, LINK_KEYS));
    ReplayKeys(m, hw, Entry(m, Admin), LINK_KEYS);
    EnteredAppend(map[], hw, KeyLines(m, Admin) + LinesOf(m, LINK_KEYS), KeyLines(m, LaneSplit));
    EntriesHave(m, LINK_KEYS, LaneSplit);
    ReplayKey(m, hw, Entry(m, Admin) + Entries(m, LINK_KEYS), LaneSplit);
    EssentialEntries(m, hw);
  }

  lemma EssentialSettings(m: ConfigMap, hwSpeeds: string, baseMtu: int)
    requires Admin in m ==> m[Admin] == UP || m[Admin] == DOWN
    ensures var was := RowSettings(m, hwSpeeds, baseMtu);
      RowSettings(Essential(m), hwSpeeds, baseMtu)
      == was.(autoneg := if was.autoneg == AutonegOn then AutonegDefault else was.autoneg)
  {
  }

  /** So, after any commands, the daemon reads the same settings from the replayed column,
      except that an explicit autoneg=on comes back as the default. */
  lemma CommandsRoundTrip(hw: Hw, cs: seq<Command>, hwSpeeds: string, baseMtu: int)
    requires forall c :: c in cs ==> Typed(c)
    ensures var m := Entered(map[], hw, cs); var again := Entered(map[], hw, Lines(m));
      var was := RowSettings(m, hwSpeeds, baseMtu);
      RowSettings(again, hwSpeeds, baseMtu)
      == was.(autoneg := if was.autoneg == AutonegOn then AutonegDefault else was.autoneg)
  {
    var m := Entered(map[], hw, cs);
    EnteredStorable(hw, cs);
    assert Admin in m ==> Storable(Admin, m[Admin], hw);
    ReplayRestores(m, hw);
    EssentialSettings(m, hwSpeeds, baseMtu);
  }

  lemma {:induction false} LockedRefuses(m: ConfigMap, hw: Hw, ks: seq<CfgKey>, n: ConfigMap)
    requires Locked(n) && Admin !in ks && LaneSplit !in ks
    ensures Entered(n, hw, LinesOf(m, ks)) == n
  {
    if ks != [] {
      var k := ks[|ks| - 1];
      LockedRefuses(m, hw, ks[..|ks| - 1], n);
      EnteredAppend(n, hw, LinesOf(m, ks[..|ks| - 1]), KeyLines(m, k));
      LockedRefusesKey(m, hw, k, n);
    }
  }

  lemma LockedRefusesOne(n: ConfigMap, hw: Hw, c: Command)
    requires Locked(n) && !c.Shutdown? && !c.SplitTo?
    ensures Apply(n, hw, c) == n
  {
  }

  lemma LockedRefusesKey(m: ConfigMap, hw: Hw, k: CfgKey, n: ConfigMap)
    requires Locked(n) && k != Admin && k != LaneSplit
    ensures Entered(n, hw, KeyLines(m, k)) == n
  {
    hide Apply, Locked, Entered;
    var cs := KeyLines(m, k);
    assert Entered(n, hw, []) == n by { NothingEntered(n, hw); }
    if |cs| > 0 { LockedRefusesOne(n, hw, cs[0]); }
    if |cs| == 1 {
      assert cs == [cs[0]];
      EnteredOne(n, hw, cs[0]);
    } else if |cs| == 2 {
      assert cs == [cs[0]] + [cs[1]];
      LockedRefusesOne(n, hw, cs[1]);
      EnteredAppend(n, hw, [cs[0]], [cs[1]]);
      EnteredOne(n, hw, cs[0]);
      EnteredOne(n, hw, cs[1]);
    }
  }

  /** Replaying what is printed with split first: the interface, once split, refuses the
      lines that follow. */
  lemma SplitFirstReplays(m: ConfigMap, hw: Hw)
    requires FromCommands(m, hw)
    ensures Entered(map[], hw, SplitFirst(m)) == Essential(m) <==> !Locked(m) || LinesOf(m, LINK_KEYS) == []
  {
    hide Apply, Entered, LinesOf, Entries, Essential, FromCommands;
    if Locked(m) {
      ContextReplayLocked(m, hw);
      NothingBetween(m, hw);
      NoLinesNoEntries(m, hw, LINK_KEYS);
    } else {
      ReplayRestores(m, hw);
      assert SplitFirst(m) == Lines(m);
    }
  }

  /** The text show running-config prints for an interface restores its column exactly
      when, if the interface is hidden, there is nothing to restore, and otherwise it is
      not split or prints no line that a split interface refuses. */
  lemma ContextReplayExactly(x: Context, hw: Hw)
    requires FromCommands(x.column, hw)
    ensures Entered(map[], hw, ContextLines(x)) == Essential(x.column) <==>
      if Hidden(x) then Essential(x.column) == map[] else !Locked(x.column) || LinesOf(x.column, LINK_KEYS) == []
  {
    hide SplitFirst, Essential, FromCommands, Entered, LinesOf;
    if Hidden(x) { NothingEntered(map[], hw); } else { SplitFirstReplays(x.column, hw); }
  }

  /** Admin and lane_split are all there is exactly when no other key has an entry. */
  lemma NothingBetween(m: ConfigMap, hw: Hw)
    requires FromCommands(m, hw)
    ensures Entry(m, Admin) + Entry(m, LaneSplit) == Essential(m) <==> Entries(m, LINK_KEYS) == map[]
  {
    hide Entries, Essential, FromCommands;
    EssentialEntries(m, hw);
    if Entries(m, LINK_KEYS) != map[] {
      var k :| k in Entries(m, LINK_KEYS);
      EntriesHave(m, LINK_KEYS, k);
      assert k in Essential(m) && k !in Entry(m, Admin) + Entry(m, LaneSplit);
    }
  }

  lemma ContextReplayLocked(m: ConfigMap, hw: Hw)
    requires FromCommands(m, hw) && Locked(m)
    ensures Entered(map[], hw, SplitFirst(m)) == Entry(m, Admin) + Entry(m, LaneSplit)
  {
    ReplayKey(m, hw, map[], Admin);
    assert map[] + Entry(m, Admin) == Entry(m, Admin);
    EnteredAppend(map[], hw, KeyLines(m, Admin), KeyLines(m, LaneSplit));
    ReplayKey(m, hw, Entry(m, Admin), LaneSplit);
    EnteredAppend(map[], hw, KeyLines(m, Admin) + KeyLines(m, LaneSplit), LinesOf(m, LINK_KEYS));
    LockedRefuses(m, hw, LINK_KEYS, Entry(m, Admin) + Entry(m, LaneSplit));
  }

  /** With a name given: the text restores the column exactly when no pause value is stored,
      or neither autonegotiation off nor split. */
  lemma FilteredReplayExactly(m: ConfigMap, hw: Hw)
    requires FromCommands(m, hw)
    ensures Entered(map[], hw, FilteredLines(m)) == Essential(m) <==>
      Pause !in m || (Autoneg !in Essential(m) && LaneSplit !in Essential(m))
  {
    hide Apply, Entered, LinesOf, Entries, Essential, FromCommands, KeyLines, Entry;
    PauseIsShown(m, hw);
    if Pause in m {
      ReplayKey(m, hw, map[], Admin);
      assert map[] + Entry(m, Admin) == Entry(m, Admin);
      EnteredAppend(map[], hw, KeyLines(m, Admin), LinesOf(m, FRONT_KEYS));
      AdminIsFree(m);
      ReplayKeys(m, hw, Entry(m, Admin), FRONT_KEYS);
      FrontIsAll(m, hw);
    } else {
      ReplayRestores(m, hw);
    }
  }

  lemma PauseIsShown(m: ConfigMap, hw: Hw)
    requires FromCommands(m, hw)
    ensures PauseShown(m) <==> Pause in m
  {
    if Pause in m { assert Storable(Pause, m[Pause], hw); }
    assert RX[0] != NONE[0] && TX[0] != NONE[0] && RXTX[0] != NONE[0];
  }

  lemma EntryOf(m: ConfigMap, k: CfgKey, x: CfgKey)
    ensures x in Entry(m, k) <==> x == k && x in Essential(m)
    ensures x in Entry(m, k) ==> Entry(m, k)[x] == m[x]
  {
    hide Essential;
  }

  lemma AdminIsFree(m: ConfigMap)
    ensures !Locked(Entry(m, Admin)) && forall k <- FRONT_KEYS :: k !in Entry(m, Admin)
  {
  }

  lemma InFront(m: ConfigMap, hw: Hw, k: CfgKey)
    requires FromCommands(m, hw)
    ensures var front := Entry(m, Admin) + Entries(m, FRONT_KEYS);
      && (k in front <==> k in Essential(m) && k != Autoneg && k != LaneSplit)
      && (k in front ==> k in Essential(m) && front[k] == Essential(m)[k])
  {
    hide Entries, Essential, FromCommands, Entry;
    EssentialKeys(m, hw);
    EntryOf(m, Admin, k);
    EntriesHave(m, FRONT_KEYS, k);
  }

  lemma FrontIsAll(m: ConfigMap, hw: Hw)
    requires FromCommands(m, hw)
    ensures Entry(m, Admin) + Entries(m, FRONT_KEYS) == Essential(m) <==>
      Autoneg !in Essential(m) && LaneSplit !in Essential(m)
  {
    hide Entries, Essential, FromCommands, Entry;
    var front := Entry(m, Admin) + Entries(m, FRONT_KEYS);
    forall k
      ensures k in front <==> k in Essential(m) && k != Autoneg && k != LaneSplit
      ensures k in front ==> k in Essential(m) && front[k] == Essential(m)[k]
    {
      InFront(m, hw, k);
    }
  }

  /** A stored key prints nothing exactly when there is nothing to restore. */
  lemma KeySilent(m: ConfigMap, hw: Hw, k: CfgKey)
    requires FromCommands(m, hw)
    ensures KeyLines(m, k) == [] <==> Entry(m, k) == map[]
  {
    WordsDiffer();
    if k in m { assert Storable(k, m[k], hw); }
    if k in Essential(m) { assert k in Entry(m, k); }
  }

  lemma {:induction false} NoLinesNoEntries(m: ConfigMap, hw: Hw, ks: seq<CfgKey>)
    requires FromCommands(m, hw)
    ensures LinesOf(m, ks) == [] <==> Entries(m, ks) == map[]
  {
    hide FromCommands, KeyLines, Entry;
    if ks != [] {
      var front, k := ks[..|ks| - 1], ks[|ks| - 1];
      NoLinesNoEntries(m, hw, front);
      KeySilent(m, hw, k);
      if Entries(m, front) != map[] {
        var x :| x in Entries(m, front);
        assert x in Entries(m, ks);
      }
      if Entry(m, k) != map[] {
        var x :| x in Entry(m, k);
        assert x in Entries(m, ks);
      }
    }
  }

  const JUMBO := "9000"

  lemma JumboAccepted()
    ensures MtuAccepted(JUMBO)
  {
    assert "900"[..2] == "90" && "90"[..1] == "9" && JUMBO[..3] == "900";
    assert Value("9") == 9 && Value("90") == 90 && Value("900") == 900;
    assert Value(JUMBO) == Value("900") * 10;
  }

  lemma EnteredTwo(hw: Hw, c: Command, d: Command)
    ensures Entered(map[], hw, [c, d]) == Apply(Apply(map[], hw, c), hw, d)
  {
    hide Apply;
    EnteredAppend(map[], hw, [c], [d]);
    EnteredOne(map[], hw, c);
    EnteredOne(Apply(map[], hw, c), hw, d);
    assert [c] + [d] == [c, d];
  }

  lemma JumboThenSplit(speeds: Option<string>)
    ensures Entered(map[], Hw(speeds, true), [MtuTo(false, JUMBO), SplitTo(false, true)])
         == map[Mtu := JUMBO, LaneSplit := SPLIT]
  {
    hide MtuAccepted, Entered;
    var hw := Hw(speeds, true);
    JumboAccepted();
    EnteredTwo(hw, MtuTo(false, JUMBO), SplitTo(false, true));
    assert Apply(map[], hw, MtuTo(false, JUMBO)) == map[Mtu := JUMBO];
  }

  lemma LoneSplit()
    ensures var m: ConfigMap := map[Mtu := JUMBO, LaneSplit := SPLIT];
      Locked(m) && Essential(m) == m && Entry(m, Admin) + Entry(m, LaneSplit) == map[LaneSplit := SPLIT]
  {
  }

  /** An interface that can be split, with an MTU set ahead of split: its context's text
      gives the lanes back and loses the MTU. */
  lemma SplitFirstFails(speeds: Option<string>)
    ensures var hw := Hw(speeds, true); var m := Entered(map[], hw, [MtuTo(false, JUMBO), SplitTo(false, true)]);
      && m == map[Mtu := JUMBO, LaneSplit := SPLIT] == Essential(m)
      && Entered(map[], hw, SplitFirst(m)) == map[LaneSplit := SPLIT]
  {
    hide Entered, SplitFirst, Entry, Essential, Locked;
    var hw := Hw(speeds, true);
    JumboThenSplit(speeds);
    EnteredStorable(hw, [MtuTo(false, JUMBO), SplitTo(false, true)]);
    LoneSplit();
    ContextReplayLocked(map[Mtu := JUMBO, LaneSplit := SPLIT], hw);
  }

  /** A pause value, and the interface split afterwards. */
  lemma FilteredReplayFails(speeds: Option<string>)
    ensures var hw := Hw(speeds, true); var m := Entered(map[], hw, [Flow(true, true), SplitTo(false, true)]);
      && m == map[Pause := TX, LaneSplit := SPLIT]
      && Entered(map[], hw, FilteredLines(m)) != Essential(m) == Entered(map[], hw, Lines(m))
  {
    hide Entered, Lines, FilteredLines;
    var hw := Hw(speeds, true);
    var m := map[Pause := TX, LaneSplit := SPLIT];
    EnteredTwo(hw, Flow(true, true), SplitTo(false, true));
    assert Apply(map[], hw, Flow(true, true)) == map[Pause := TX];
    EnteredStorable(hw, [Flow(true, true), SplitTo(false, true)]);
    FilteredReplayExactly(m, hw);
    ReplayRestores(m, hw);
  }

  /* ---------- several interfaces ---------- */

  type Columns = map<Name, ConfigMap>

  /** The hardware columns and split children of every interface. */
  datatype Chassis = Chassis(hw: map<Name, Hw>, children: map<Name, seq<Name>>)

  /** A command in the context of n; an accepted `no split` also takes the children down. */
  function ApplyAt(cols: Columns, ch: Chassis, n: Name, c: Command): Columns {
    if n !in cols || n !in ch.hw then cols
    else
      var own := cols[n := Apply(cols[n], ch.hw[n], c)];
      if c == SplitTo(true, true) && ch.hw[n].splittable && n in ch.children then
        map x | x in own :: if x in ch.children[n] then own[x][Admin := DOWN] else own[x]
      else own
  }

  function EnteredAt(cols: Columns, ch: Chassis, cs: seq<(Name, Command)>): Columns {
    if cs == [] then cols
    else ApplyAt(EnteredAt(cols, ch, cs[..|cs| - 1]), ch, cs[|cs| - 1].0, cs[|cs| - 1].1)
  }

  ghost predicate AllFromCommands(cols: Columns, ch: Chassis) {
    cols.Keys == ch.hw.Keys && forall n :: n in cols ==> FromCommands(cols[n], ch.hw[n])
  }

  lemma {:induction false} ColumnsStorable(cols: Columns, ch: Chassis, cs: seq<(Name, Command)>)
    requires AllFromCommands(cols, ch) && forall e :: e in cs ==> Typed(e.1)
    ensures AllFromCommands(EnteredAt(cols, ch, cs), ch)
  {
    if cs != [] {
      var before, e := EnteredAt(cols, ch, cs[..|cs| - 1]), cs[|cs| - 1];
      ColumnsStorable(cols, ch, cs[..|cs| - 1]);
      if e.0 in before { ApplyStorable(before[e.0], ch.hw[e.0], e.1); }
    }
  }

  /** After any commands on any interfaces of a fresh switch, what is printed for one of
      them restores its column. */
  lemma EveryColumnReplays(ch: Chassis, cs: seq<(Name, Command)>, n: Name)
    requires n in ch.hw && forall e :: e in cs ==> Typed(e.1)
    ensures var cols := EnteredAt(map x | x in ch.hw :: map[], ch, cs);
      n in cols && Entered(map[], ch.hw[n], Lines(cols[n])) == Essential(cols[n])
  {
    var fresh0: Columns := map x | x in ch.hw :: map[];
    ColumnsStorable(fresh0, ch, cs);
    ReplayRestores(EnteredAt(fresh0, ch, cs)[n], ch.hw[n]);
  }

  /** A loopback that has been enabled: only its header is printed. */
  lemma LoopbackLost(name: Name, hw: Hw)
    ensures var x := Context(name, Loopback, None, Entered(map[], hw, [Shutdown(true)]));
      && x.column == map[Admin := UP] == Essential(x.column)
      && Entered(map[], hw, ContextLines(x)) != Essential(x.column)
  {
    EnteredOne(map[], hw, Shutdown(true));
    NothingEntered(map[], hw);
    assert UP[0] != DOWN[0];
  }

  const WHOLE := "1"
  const LANE := "1-1"

  const TAKEN_BACK := [(WHOLE, SplitTo(false, true)), (LANE, MtuTo(false, JUMBO)), (WHOLE, SplitTo(true, true))]

  lemma TakenBack(ch: Chassis)
    requires WHOLE in ch.hw && LANE in ch.hw && ch.hw[WHOLE].splittable
    requires WHOLE in ch.children && ch.children[WHOLE] == [LANE]
    ensures var cols := EnteredAt(map x | x in ch.hw :: map[], ch, TAKEN_BACK);
      WHOLE in cols && LANE in cols && cols[WHOLE] == map[] && cols[LANE] == map[Mtu := JUMBO, Admin := DOWN]
  {
    hide MtuAccepted, EnteredAt;
    JumboAccepted();
    var fresh0: Columns := map x | x in ch.hw :: map[];
    var c1, c2, c3 := TAKEN_BACK[0], TAKEN_BACK[1], TAKEN_BACK[2];
    assert |WHOLE| != |LANE|;
    NothingEnteredAt(fresh0, ch);
    EnteredAtNext(fresh0, ch, [], c1);
    EnteredAtNext(fresh0, ch, [c1], c2);
    EnteredAtNext(fresh0, ch, [c1, c2], c3);
    assert [] + [c1] == [c1] && [c1] + [c2] == [c1, c2] && [c1, c2] + [c3] == TAKEN_BACK;
  }

  /** Split, an MTU on the child, and the lanes given back: the child keeps its MTU, and
      nothing of it is printed. */
  lemma HiddenChildLost(ch: Chassis)
    requires WHOLE in ch.hw && LANE in ch.hw && ch.hw[WHOLE].splittable
    requires WHOLE in ch.children && ch.children[WHOLE] == [LANE]
    ensures var cols := EnteredAt(map x | x in ch.hw :: map[], ch, TAKEN_BACK);
      && WHOLE in cols && LANE in cols && cols[LANE] == map[Mtu := JUMBO, Admin := DOWN]
      && var x := Context(LANE, Physical, Some(cols[WHOLE]), cols[LANE]);
         && !Locked(x.column) && ContextLines(x) == []
         && Entered(map[], ch.hw[LANE], ContextLines(x)) != Essential(x.column)
  {
    hide EnteredAt, Entered, SplitFirst;
    TakenBack(ch);
    var m: ConfigMap := map[Mtu := JUMBO, Admin := DOWN];
    assert Mtu in Essential(m);
    NothingEntered(map[], ch.hw[LANE]);
  }

  lemma NothingEnteredAt(cols: Columns, ch: Chassis)
    ensures EnteredAt(cols, ch, []) == cols
  {
  }

  lemma EnteredAtNext(cols: Columns, ch: Chassis, cs: seq<(Name, Command)>, c: (Name, Command))
    ensures EnteredAt(cols, ch, cs + [c]) == ApplyAt(EnteredAt(cols, ch, cs), ch, c.0, c.1)
  {
    assert (cs + [c])[..|cs|] == cs;
  }
}
