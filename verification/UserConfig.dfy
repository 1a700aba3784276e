/** The user_config column and how the daemon reads it (intfd_parse_user_cfg). */
module UserConfig {
  import opened SpeedText

  const MIN_MTU := 576
  const DEFAULT_MTU := 1500

  /** Keys of Interface:user_config. Keys no code here looks at are `Other`. */
  datatype CfgKey = Admin | Autoneg | Pause | Duplex | Speeds | Mtu | LaneSplit | Other(string)

  type ConfigMap = map<CfgKey, string>

  const UP := "up"
  const DOWN := "down"
  const OFF := "off"
  const ON := "on"
  const DEFAULT := "default"
  const NONE := "none"
  const RX := "rx"
  const TX := "tx"
  const RXTX := "rxtx"
  const HALF := "half"
  const FULL := "full"
  const SPLIT := "split"

  datatype AdminState = AdminDown | AdminUp
  datatype AutonegCfg = AutonegOff | AutonegOn | AutonegDefault
  datatype PauseMode = PauseNone | PauseRx | PauseTx | PauseRxTx
  datatype DuplexMode = DuplexHalf | DuplexFull
  datatype Lane = NoSplit | Split

  /** struct intf_user_cfg. Entries of `speeds` past nSpeeds carry no meaning. */
  datatype UserCfgFields = UserCfg(
    admin: AdminState, autoneg: AutonegCfg, pause: PauseMode, duplex: DuplexMode, lane: Lane,
    speeds: seq<Speed>, nSpeeds: int, mtu: int)

  predicate BufferOk(speeds: seq<Speed>, n: int) { |speeds| == MAX_SPEEDS && -1 <= n <= MAX_SPEEDS }

  type UserCfg = u: UserCfgFields | BufferOk(u.speeds, u.nSpeeds)
    witness UserCfg(AdminDown, AutonegOff, PauseNone, DuplexFull, NoSplit, ZEROS, 0, 0)

  type Buffer = b: seq<Speed> | |b| == MAX_SPEEDS witness ZEROS

  function Has(cfg: ConfigMap, key: CfgKey, value: string): bool {
    key in cfg && cfg[key] == value
  }

  function ParseAdmin(cfg: ConfigMap): AdminState {
    if Has(cfg, Admin, UP) then AdminUp else AdminDown
  }

  function ParseAutoneg(cfg: ConfigMap): AutonegCfg {
    if Has(cfg, Autoneg, OFF) then AutonegOff
    else if Has(cfg, Autoneg, ON) then AutonegOn
    else AutonegDefault
  }

  function ParsePause(cfg: ConfigMap): PauseMode {
    if Has(cfg, Pause, RXTX) then PauseRxTx
    else if Has(cfg, Pause, TX) then PauseTx
    else if Has(cfg, Pause, RX) then PauseRx
    else PauseNone
  }

  function ParseDuplex(cfg: ConfigMap): DuplexMode {
    if Has(cfg, Duplex, HALF) then DuplexHalf else DuplexFull
  }

  function ParseLane(cfg: ConfigMap): Lane {
    if Has(cfg, LaneSplit, SPLIT) then Split else NoSplit
  }

  /** 0 when not configured, -1 when refused, otherwise a usable MTU. */
  function ParseMtu(cfg: ConfigMap, baseMtu: int): (mtu: int)
    ensures mtu == 0 <==> Mtu !in cfg
    ensures mtu == 0 || mtu == -1 || MIN_MTU <= mtu <= baseMtu
  {
    if Mtu !in cfg then 0
    else if !IsNumber(cfg[Mtu]) || Atoi(cfg[Mtu]) < MIN_MTU || Atoi(cfg[Mtu]) > baseMtu then -1
    else Atoi(cfg[Mtu])
  }

  function ParseSpeedCount(cfg: ConfigMap, hwSpeeds: string): (n: int)
    ensures -1 <= n <= MAX_SPEEDS
  {
    if Speeds !in cfg then 0 else UserSpeedCount(cfg[Speeds], hwSpeeds)
  }

  /** A user_config column as read: parsed into a cleared buffer, and whether it has a
      speeds key, without which parsing leaves the buffer alone. */
  datatype RowCfgFields = RowCfg(user: UserCfg, speedsGiven: bool)

  type RowCfg = c: RowCfgFields | c.speedsGiven || c.user.nSpeeds == 0
    witness RowCfg(UserCfg(AdminDown, AutonegOff, PauseNone, DuplexFull, NoSplit, ZEROS, 0, 0), false)

  function ReadCfg(cfg: ConfigMap, hwSpeeds: string, baseMtu: int): RowCfg {
    RowCfg(UserCfg(ParseAdmin(cfg), ParseAutoneg(cfg), ParsePause(cfg), ParseDuplex(cfg), ParseLane(cfg),
                   if Speeds in cfg then ParseBuffer(cfg[Speeds], ZEROS) else ZEROS,
                   ParseSpeedCount(cfg, hwSpeeds), ParseMtu(cfg, baseMtu)),
           Speeds in cfg)
  }

  /** The parsed configuration when the buffer held `before`. */
  function ParseInto(c: RowCfg, before: Buffer): UserCfg {
    if c.speedsGiven then c.user else c.user.(speeds := before)
  }

  method ParseConfiguredSpeeds(cfg: ConfigMap, hwSpeeds: string, before: Buffer)
    returns (speeds: Buffer, n: int)
    ensures speeds == (if Speeds in cfg then ParseBuffer(cfg[Speeds], ZEROS) else before)
    ensures n == ParseSpeedCount(cfg, hwSpeeds)
  {
    var buffer := new Speed[MAX_SPEEDS](i requires 0 <= i < MAX_SPEEDS => before[i]);
    assert buffer[..] == before;
    n := 0;
    if Speeds in cfg {
      n := CheckUserSpeeds(cfg[Speeds], hwSpeeds, buffer);
    }
    speeds := buffer[..];
  }

  method ParseLinkModes(cfg: ConfigMap)
    returns (autoneg: AutonegCfg, pause: PauseMode, duplex: DuplexMode)
    ensures autoneg == ParseAutoneg(cfg) && pause == ParsePause(cfg) && duplex == ParseDuplex(cfg)
  {
    autoneg := AutonegDefault;
    if Has(cfg, Autoneg, OFF) {
      autoneg := AutonegOff;
    } else if Has(cfg, Autoneg, ON) {
      autoneg := AutonegOn;
    }

    pause := PauseNone;
    if Has(cfg, Pause, RXTX) {
      pause := PauseRxTx;
    } else if Has(cfg, Pause, TX) {
      pause := PauseTx;
    } else if Has(cfg, Pause, RX) {
      pause := PauseRx;
    }

    duplex := DuplexFull;
    if Has(cfg, Duplex, HALF) { duplex := DuplexHalf; }
  }

  method IntfdParseUserCfg(cfg: ConfigMap, hwSpeeds: string, baseMtu: int, before: Buffer)
    returns (u: UserCfg)
    ensures u == ParseInto(ReadCfg(cfg, hwSpeeds, baseMtu), before)
  {
    var admin := AdminDown;
    if Has(cfg, Admin, UP) { admin := AdminUp; }

    var autoneg, pause, duplex := ParseLinkModes(cfg);
    var speeds, n := ParseConfiguredSpeeds(cfg, hwSpeeds, before);

    var mtu := 0;
    if Mtu in cfg {
      mtu := -1;
      if IsNumber(cfg[Mtu]) {
        mtu := Atoi(cfg[Mtu]);
        if mtu < MIN_MTU || mtu > baseMtu { mtu := -1; }
      }
    }

    var lane := NoSplit;
    if Has(cfg, LaneSplit, SPLIT) { lane := Split; }

    u := UserCfg(admin, autoneg, pause, duplex, lane, speeds, n, mtu);
  }

  /* ---------- the meaning of a cached configuration ---------- */

  /** The cached configuration without the buffer entries nobody may look at. */
  datatype Settings = Settings(
    admin: AdminState, autoneg: AutonegCfg, pause: PauseMode, duplex: DuplexMode, lane: Lane,
    speeds: seq<Speed>, speedsValid: bool, mtu: int)

  function Meaning(u: UserCfg): Settings {
    Settings(u.admin, u.autoneg, u.pause, u.duplex, u.lane,
             if u.nSpeeds > 0 then u.speeds[..u.nSpeeds] else [], u.nSpeeds != -1, u.mtu)
  }

  function RowSettings(cfg: ConfigMap, hwSpeeds: string, baseMtu: int): Settings {
    Settings(ParseAdmin(cfg), ParseAutoneg(cfg), ParsePause(cfg), ParseDuplex(cfg), ParseLane(cfg),
             if Speeds in cfg && Supported(cfg[Speeds], hwSpeeds) then SpeedList(cfg[Speeds]) else [],
             Speeds in cfg && Tokens(cfg[Speeds]) != [] ==> Supported(cfg[Speeds], hwSpeeds),
             ParseMtu(cfg, baseMtu))
  }

  /** What a row says about an interface does not depend on what the buffer held. */
  lemma ParseMeaning(c: RowCfg, before: Buffer)
    ensures Meaning(ParseInto(c, before)) == Meaning(c.user)
  {
  }

  /** The cached settings are the ones the row's text asks for. */
  lemma ReadMeaning(cfg: ConfigMap, hwSpeeds: string, baseMtu: int)
    ensures Meaning(ReadCfg(cfg, hwSpeeds, baseMtu).user) == RowSettings(cfg, hwSpeeds, baseMtu)
  {
    if Speeds in cfg && Supported(cfg[Speeds], hwSpeeds) {
      ParsedPrefix(cfg[Speeds], ZEROS);
    }
  }
}
