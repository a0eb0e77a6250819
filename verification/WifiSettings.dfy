/** Wi-Fi settings: every radio of a request is checked and written, or nothing is; what was written
    is what the reader shows. */
module WifiSettings {
  import opened Wrappers
  import opened Texts
  import opened UciStore
  import opened UciOptions
  import Literals
  import Export = UciExport
  import Guest = GuestNetwork

  // ---------------------------------------------------------------- settings

  datatype Hwmode = G11 | A11

  datatype Encryption = Wpa2 | Wpa3 | Wpa23 | Custom

  datatype GuestWifi = GuestOff | GuestOn(ssid: string, password: string, encryption: Encryption)

  datatype Radio =
    | Off
    | On(ssid: string, channel: nat, hidden: bool, hwmode: Hwmode, htmode: string, encryption: Encryption,
         no80211w: bool, password: string, guest: GuestWifi)

  datatype Request = Request(id: nat, radio: Radio)

  /** What the hardware offers in one band. */
  datatype Band = Band(hwmode: Hwmode, channels: seq<nat>, htmodes: seq<string>)

  type Bands = string -> seq<Band>

  /** The schema: names of networks are not empty, and neither is a mode. */
  predicate Accepted(r: Radio) {
    r.On? ==> r.ssid != "" && r.htmode != "" && (r.guest.GuestOn? ==> r.guest.ssid != "")
  }

  // ---------------------------------------------------------------- finding the sections

  function RadioName(id: nat): string {
    "radio" + Decimal(id)
  }

  function NewGuestName(id: nat): string {
    "guest_iface_" + Decimal(id)
  }

  /** The named section of the radio; None is the IndexError. */
  function DeviceSection(st: Store, id: nat): Option<string> {
    var name := RadioName(id);
    if name in SectionsByType(st, "wireless", "wifi-device") && !Export.IsAnonymous(name) then Some(name) else None
  }

  predicate IsGuestIface(n: string) {
    !Export.IsAnonymous(n) && "guest_iface_" <= n
  }

  /** The section belongs to the device, as its guest network or as its own. */
  predicate Serves(st: Store, n: string, device: string, guest: bool) {
    Get(st, "wireless", n, "device") == Some(Text(device)) && IsGuestIface(n) == guest
  }

  function FirstServing(st: Store, names: seq<string>, device: string, guest: bool): (r: Option<string>)
    ensures r.Some? ==> r.value in names && Serves(st, r.value, device, guest)
  {
    if names == [] then None
    else if Serves(st, names[0], device, guest) then Some(names[0])
    else FirstServing(st, names[1..], device, guest)
  }

  function Iface(st: Store, device: string, guest: bool): Option<string> {
    FirstServing(st, SectionsByType(st, "wireless", "wifi-iface"), device, guest)
  }

  // ---------------------------------------------------------------- reading

  /** `_get_hwmode`; a band that is not known counts as 2.4 GHz, an old `hwmode` is shown as it is. */
  function ReadHwmode(st: Store, device: string): Value {
    var band := Get(st, "wireless", device, "band");
    if band.None? || band.value == Text("") then GetOr(st, "wireless", device, "hwmode", "11g")
    else if band.value == Text("5g") then Text("11a")
    else Text("11g")
  }

  function HwmodeText(m: Hwmode): string {
    match m
    case G11 => "11g"
    case A11 => "11a"
  }

  function BandText(m: Hwmode): string {
    match m
    case G11 => "2g"
    case A11 => "5g"
  }

  /** The channel, 0 for `auto`; None where `int` raises. */
  function ReadChannel(st: Store, device: string): Option<nat> {
    match Get(st, "wireless", device, "channel")
    case None => Some(if ReadHwmode(st, device) == Text("11g") then 11 else 36)
    case Some(Text(t)) => if t == "auto" then Some(0) else Int(t)
    case Some(Items(_)) => None
  }

  function EncryptionText(e: Encryption): string {
    match e
    case Wpa2 => "psk2+ccmp"
    case Wpa3 => "sae"
    case _ => "sae-mixed"
  }

  /** `WIFI_ENC_UCI_TO_MODES`, after every psk2 variant was made one */
  function EncryptionOf(t: string): Encryption {
    if "psk2" <= t then Wpa2 else if t == "sae" then Wpa3 else if t == "sae-mixed" then Wpa23 else Custom
  }

  /** Switched off on the device or on the interface. */
  function ReadEnabled(st: Store, device: string, iface: string): Option<bool> {
    match ReadBool(st, "wireless", device, "disabled", false)
    case None => None
    case Some(true) => Some(false)
    case Some(false) =>
      match ReadBool(st, "wireless", iface, "disabled", false)
      case None => None
      case Some(off) => Some(!off)
  }

  /** The stored cipher; None where it is a list and `startswith` raises. */
  function ReadCipher(st: Store, n: string): Option<string> {
    TextOf(Some(GetOr(st, "wireless", n, "encryption", "sae-mixed")))
  }

  datatype ShownGuest = ShownGuest(enabled: bool, ssid: Value, password: Value, encryption: Encryption)

  datatype ShownRadio = ShownRadio(enabled: bool, ssid: Value, channel: nat, hidden: bool, hwmode: Value, htmode: Value,
    encryption: Encryption, no80211w: bool, password: Value, guest: ShownGuest)

  /** The guest part; None where it raises. */
  function ReadGuest(st: Store, guest: Option<string>, ssid: string): Option<ShownGuest> {
    match guest
    case None => Some(ShownGuest(false, Text(ssid + "-guest"), Text(""), Wpa23))
    case Some(n) =>
      var derived := if |ssid + "-guest"| <= 32 then ssid + "-guest" else "Turris-guest";
      var off, encryption := ReadBool(st, "wireless", n, "disabled", false), ReadCipher(st, n);
      if off.None? || encryption.None? then None
      else Some(ShownGuest(!off.value, GetOr(st, "wireless", n, "ssid", derived), GetOr(st, "wireless", n, "key", ""),
                           EncryptionOf(encryption.value)))
  }

  /** `_prepare_wifi_device` without the hardware's own data; None where it raises. */
  function ReadRadio(st: Store, device: string, iface: string, guest: Option<string>): Option<ShownRadio> {
    var enabled := ReadEnabled(st, device, iface);
    var ssid := GetOr(st, "wireless", iface, "ssid", "Turris");
    var hidden := ReadBool(st, "wireless", iface, "hidden", false);
    var channel := ReadChannel(st, device);
    var stored := ReadCipher(st, iface);
    if enabled.None? || hidden.None? || channel.None? || stored.None? then None
    else
      var encryption := if !enabled.value && stored.value == "none" then Wpa23 else EncryptionOf(stored.value);
      match ReadGuest(st, guest, PyText(ssid))
      case None => None
      case Some(g) =>
        Some(ShownRadio(enabled.value, ssid, channel.value, hidden.value, ReadHwmode(st, device),
          GetOr(st, "wireless", device, "htmode", "NOHT"), encryption,
          encryption in {Wpa3, Wpa23} && Get(st, "wireless", iface, "ieee80211w") == Some(Text("0")),
          GetOr(st, "wireless", iface, "key", ""), g))
  }

  /** What `get_settings` shows of the radio with this number; None where it raises or shows nothing. */
  function ReadDevice(st: Store, id: nat): Option<ShownRadio> {
    match DeviceSection(st, id)
    case None => None
    case Some(device) =>
      match Iface(st, device, false)
      case None => None
      case Some(iface) => ReadRadio(st, device, iface, Iface(st, device, true))
  }

  /** A radio shows what was asked for it; custom encryption and a disabled guest network leave
      what there was. */
  predicate ShowsRadio(shown: ShownRadio, r: Radio) {
    && shown.enabled == r.On?
    && (r.On? ==>
          && shown.ssid == Text(r.ssid)
          && shown.channel == r.channel
          && shown.hidden == r.hidden
          && shown.hwmode == Text(HwmodeText(r.hwmode))
          && shown.htmode == Text(r.htmode)
          && shown.password == Text(r.password)
          && (r.encryption != Custom ==>
                shown.encryption == r.encryption && shown.no80211w == (r.no80211w && r.encryption != Wpa2))
          && shown.guest.enabled == r.guest.GuestOn?
          && (r.guest.GuestOn? ==>
                && shown.guest.ssid == Text(r.guest.ssid)
                && shown.guest.password == Text(r.guest.password)
                && (r.guest.encryption != Custom ==> shown.guest.encryption == r.guest.encryption)))
  }

  // ---------------------------------------------------------------- checking

  function Matching(bands: seq<Band>, m: Hwmode): seq<Band> {
    if bands == [] then []
    else (if bands[0].hwmode == m then [bands[0]] else []) + Matching(bands[1..], m)
  }

  /** The tests of `update_settings`: exactly one band of the mode, with the channel and the width. */
  predicate Offered(bands: seq<Band>, r: Radio) {
    r.On? ==>
      var found := Matching(bands, r.hwmode);
      |found| == 1 && (r.channel == 0 || r.channel in found[0].channels) && r.htmode in found[0].htmodes
  }

  /** The request names a radio that is there, with an interface, and asks for what it offers. */
  predicate Possible(st: Store, bands: Bands, q: Request) {
    && DeviceSection(st, q.id).Some?
    && Iface(st, RadioName(q.id), false).Some?
    && Offered(bands(RadioName(q.id)), q.radio)
  }

  // ---------------------------------------------------------------- what was written

  function ChannelText(channel: nat): string {
    if channel == 0 then "auto" else Decimal(channel)
  }

  ghost predicate SwitchIs(st: Store, n: string, disabled: bool) {
    Get(st, "wireless", n, "disabled") == Stored(StoreBool(disabled))
  }

  ghost predicate DeviceIs(st: Store, n: string, r: Radio)
    requires r.On?
  {
    && Get(st, "wireless", n, "channel") == Stored(ChannelText(r.channel))
    && Get(st, "wireless", n, "band") == Stored(BandText(r.hwmode))
    && Get(st, "wireless", n, "htmode") == Stored(r.htmode)
  }

  /** The cipher, with 802.11w off only where WPA3 is in use and it was asked for. */
  ghost predicate CipherIs(st: Store, n: string, e: Encryption, no80211w: bool) {
    e != Custom ==>
      && Get(st, "wireless", n, "encryption") == Stored(EncryptionText(e))
      && Get(st, "wireless", n, "ieee80211w") == (if no80211w && e != Wpa2 then Some(Text("0")) else None)
  }

  ghost predicate IfaceIs(st: Store, n: string, r: Radio)
    requires r.On?
  {
    && Get(st, "wireless", n, "ssid") == Stored(r.ssid)
    && Get(st, "wireless", n, "hidden") == Stored(StoreBool(r.hidden))
    && Get(st, "wireless", n, "key") == Stored(r.password)
    && CipherIs(st, n, r.encryption, r.no80211w)
  }

  ghost predicate GuestIs(st: Store, n: string, r: Radio)
    requires r.On?
  {
    && SwitchIs(st, n, !r.guest.GuestOn?)
    && (r.guest.GuestOn? ==>
          && Get(st, "wireless", n, "ssid") == Stored(r.guest.ssid)
          && Get(st, "wireless", n, "key") == Stored(r.guest.password)
          && CipherIs(st, n, r.guest.encryption, r.no80211w))
  }

  ghost predicate RadioWritten(st: Store, r: Radio, device: string, iface: string, guest: string) {
    && SwitchIs(st, device, r.Off?)
    && SwitchIs(st, iface, r.Off?)
    && (r.On? ==> DeviceIs(st, device, r) && IfaceIs(st, iface, r) && GuestIs(st, guest, r))
  }

  /** Only options of one wireless section changed. */
  ghost predicate OptionsOf(st: Store, st': Store, n: string) {
    && ShapeOf(st') == ShapeOf(st)
    && (forall c, s, o :: !(s == n && c == "wireless") ==> Get(st', c, s, o) == Get(st, c, s, o))
  }

  ghost predicate Same(st: Store, st': Store, n: string, o: string) {
    Get(st', "wireless", n, o) == Get(st, "wireless", n, o)
  }

  lemma OptionsTwice(st: Store, st': Store, st'': Store, n: string)
    requires OptionsOf(st, st', n) && OptionsOf(st', st'', n)
    ensures OptionsOf(st, st'', n)
  {
    hide Get, ConfigsIn, ShapeOf;
  }

  // ---------------------------------------------------------------- writing

  /** `_set_wifi_encryption`, unless the encryption is custom */
  method WriteCipher(backend: UciBackend, n: string, e: Encryption, no80211w: bool)
    requires backend.Valid() && !backend.raised && Has(backend.View(), "wireless", n)
    modifies backend
    ensures backend.InBlock() && !backend.raised
    ensures ShapeOf(backend.View()) == ShapeOf(old(backend.View())) && OptionsOf(old(backend.View()), backend.View(), n)
    ensures forall o :: o != "encryption" && o != "wpa_group_rekey" && o != "ieee80211w" ==>
      Get(backend.View(), "wireless", n, o) == Get(old(backend.View()), "wireless", n, o)
    ensures CipherIs(backend.View(), n, e, no80211w)
  {
    hide ConfigsIn, ShapeOf, KindIn, Get, Fingerprint, EncryptionText;
    Literals.Configs();
    Literals.CommonOptions();
    Literals.RadioOptions();
    Literals.WifiOptions();
    if e == Custom { return; }
    backend.SetOption("wireless", n, "encryption", EncryptionText(e));
    backend.SetOption("wireless", n, "wpa_group_rekey", "86400");
    SetOrDelete(backend, "wireless", n, "ieee80211w", if e != Wpa2 && no80211w then Some("0") else None);
  }

  method WriteDevice(backend: UciBackend, n: string, r: Radio)
    requires backend.Valid() && !backend.raised && Has(backend.View(), "wireless", n) && r.On?
    modifies backend
    ensures backend.InBlock() && !backend.raised
    ensures ShapeOf(backend.View()) == ShapeOf(old(backend.View())) && OptionsOf(old(backend.View()), backend.View(), n)
    ensures Same(old(backend.View()), backend.View(), n, "disabled") && Same(old(backend.View()), backend.View(), n, "device")
    ensures DeviceIs(backend.View(), n, r)
  {
    hide ConfigsIn, ShapeOf, KindIn, Get, Fingerprint, Stored, ChannelText, BandText;
    Literals.CommonOptions();
    Literals.RadioOptions();
    backend.DelOption("wireless", n, "hwmode");
    backend.SetOption("wireless", n, "channel", ChannelText(r.channel));
    backend.SetOption("wireless", n, "band", BandText(r.hwmode));
    backend.SetOption("wireless", n, "htmode", r.htmode);
  }

  method WriteIface(backend: UciBackend, n: string, r: Radio)
    requires backend.Valid() && !backend.raised && Has(backend.View(), "wireless", n) && r.On?
    modifies backend
    ensures backend.InBlock() && !backend.raised
    ensures ShapeOf(backend.View()) == ShapeOf(old(backend.View())) && OptionsOf(old(backend.View()), backend.View(), n)
    ensures Same(old(backend.View()), backend.View(), n, "disabled") && Same(old(backend.View()), backend.View(), n, "device")
    ensures IfaceIs(backend.View(), n, r)
  {
    hide ConfigsIn, ShapeOf, KindIn, Get, Fingerprint, Stored, StoreBool, EncryptionText, OptionsOf, CipherIs;
    Literals.Configs();
    Literals.CommonOptions();
    Literals.RadioOptions();
    Literals.WifiOptions();
    ghost var st := backend.View();
    StartIface(backend, n, r);
    ghost var st1 := backend.View();
    WriteKey(backend, n, r.encryption, r.no80211w, r.password);
    OptionsTwice(st, st1, backend.View(), n);
  }

  /** The cipher and the password. */
  method WriteKey(backend: UciBackend, n: string, e: Encryption, no80211w: bool, key: string)
    requires backend.Valid() && !backend.raised && Has(backend.View(), "wireless", n)
    modifies backend
    ensures backend.InBlock() && !backend.raised
    ensures ShapeOf(backend.View()) == ShapeOf(old(backend.View())) && OptionsOf(old(backend.View()), backend.View(), n)
    ensures forall o | o in ["disabled", "device", "ssid", "hidden"] ::
      Get(backend.View(), "wireless", n, o) == Get(old(backend.View()), "wireless", n, o)
    ensures CipherIs(backend.View(), n, e, no80211w) && Get(backend.View(), "wireless", n, "key") == Stored(key)
  {
    hide ConfigsIn, ShapeOf, KindIn, Get, Fingerprint, Stored, EncryptionText, OptionsOf, CipherIs;
    Literals.Configs();
    Literals.CommonOptions();
    Literals.RadioOptions();
    Literals.WifiOptions();
    ghost var st := backend.View();
    WriteCipher(backend, n, e, no80211w);
    ghost var st1 := backend.View();
    backend.SetOption("wireless", n, "key", key);
    KeyOnly(st1, backend.View(), n, key, e, no80211w);
    OptionsTwice(st, st1, backend.View(), n);
  }

  lemma KeyOnly(st: Store, st': Store, n: string, key: string, e: Encryption, no80211w: bool)
    requires OptionIs(st, st', "wireless", n, "key", Stored(key)) && CipherIs(st, n, e, no80211w)
    ensures OptionsOf(st, st', n) && CipherIs(st', n, e, no80211w)
    ensures forall o :: o != "key" ==> Get(st', "wireless", n, o) == Get(st, "wireless", n, o)
  {
    hide ConfigsIn, ShapeOf, Get, Fingerprint, Stored, EncryptionText;
    Literals.Configs();
    Literals.CommonOptions();
    Literals.RadioOptions();
    Literals.WifiOptions();
  }

  method StartIface(backend: UciBackend, n: string, r: Radio)
    requires backend.Valid() && !backend.raised && Has(backend.View(), "wireless", n) && r.On?
    modifies backend
    ensures backend.InBlock() && !backend.raised
    ensures ShapeOf(backend.View()) == ShapeOf(old(backend.View())) && OptionsOf(old(backend.View()), backend.View(), n)
    ensures Same(old(backend.View()), backend.View(), n, "disabled") && Same(old(backend.View()), backend.View(), n, "device")
    ensures Get(backend.View(), "wireless", n, "ssid") == Stored(r.ssid)
    ensures Get(backend.View(), "wireless", n, "hidden") == Stored(StoreBool(r.hidden))
  {
    hide ConfigsIn, ShapeOf, KindIn, Get, Fingerprint, Stored, StoreBool;
    Literals.Configs();
    Literals.CommonOptions();
    Literals.RadioOptions();
    Literals.WifiOptions();
    backend.SetOption("wireless", n, "ssid", r.ssid);
    backend.SetOption("wireless", n, "network", "lan");
    backend.SetOption("wireless", n, "mode", "ap");
    backend.SetOption("wireless", n, "hidden", StoreBool(r.hidden));
  }

  /** The options of an enabled guest network. */
  method FillGuest(backend: UciBackend, n: string, id: nat, r: Radio)
    requires backend.Valid() && !backend.raised && Has(backend.View(), "wireless", n) && r.On? && r.guest.GuestOn?
    requires SwitchIs(backend.View(), n, false)
    modifies backend
    ensures backend.InBlock() && !backend.raised
    ensures ShapeOf(backend.View()) == ShapeOf(old(backend.View())) && OptionsOf(old(backend.View()), backend.View(), n)
    ensures GuestIs(backend.View(), n, r) && Same(old(backend.View()), backend.View(), n, "device")
  {
    hide ConfigsIn, ShapeOf, KindIn, Get, Fingerprint, Stored, StoreBool, EncryptionText, OptionsOf, CipherIs, Decimal;
    Literals.Configs();
    Literals.CommonOptions();
    Literals.RadioOptions();
    Literals.WifiOptions();
    ghost var st := backend.View();
    NameGuest(backend, n, r.guest.ssid);
    ghost var st1 := backend.View();
    WriteKey(backend, n, r.guest.encryption, r.no80211w, r.guest.password);
    ghost var st3 := backend.View();
    OptionsTwice(st, st1, st3, n);
    MarkGuest(backend, n, id);
    MarkKeeps(st3, backend.View(), n, r.guest.encryption, r.no80211w);
    OptionsTwice(st, st3, backend.View(), n);
  }

  /** The interface's own name, and its clients kept apart. */
  method MarkGuest(backend: UciBackend, n: string, id: nat)
    requires backend.Valid() && !backend.raised && Has(backend.View(), "wireless", n)
    modifies backend
    ensures backend.InBlock() && !backend.raised
    ensures ShapeOf(backend.View()) == ShapeOf(old(backend.View())) && OptionsOf(old(backend.View()), backend.View(), n)
    ensures forall o :: o != "ifname" && o != "isolate" ==> Get(backend.View(), "wireless", n, o) == Get(old(backend.View()), "wireless", n, o)
  {
    hide ConfigsIn, ShapeOf, KindIn, Get, Stored, StoreBool, Decimal;
    backend.SetOption("wireless", n, "ifname", "guest_turris_" + Decimal(id));
    backend.SetOption("wireless", n, "isolate", StoreBool(true));
  }

  method NameGuest(backend: UciBackend, n: string, ssid: string)
    requires backend.Valid() && !backend.raised && Has(backend.View(), "wireless", n)
    modifies backend
    ensures backend.InBlock() && !backend.raised
    ensures ShapeOf(backend.View()) == ShapeOf(old(backend.View())) && OptionsOf(old(backend.View()), backend.View(), n)
    ensures Same(old(backend.View()), backend.View(), n, "disabled") && Same(old(backend.View()), backend.View(), n, "device")
    ensures Get(backend.View(), "wireless", n, "ssid") == Stored(ssid)
  {
    hide ConfigsIn, ShapeOf, KindIn, Get, Fingerprint, Stored;
    Literals.Configs();
    Literals.CommonOptions();
    Literals.RadioOptions();
    Literals.WifiOptions();
    backend.SetOption("wireless", n, "mode", "ap");
    backend.SetOption("wireless", n, "ssid", ssid);
    backend.SetOption("wireless", n, "network", "guest_turris");
  }

  lemma MarkKeeps(st: Store, st': Store, n: string, e: Encryption, no80211w: bool)
    requires forall o :: o != "ifname" && o != "isolate" ==> Get(st', "wireless", n, o) == Get(st, "wireless", n, o)
    requires CipherIs(st, n, e, no80211w)
    ensures CipherIs(st', n, e, no80211w)
    ensures Same(st, st', n, "disabled") && Same(st, st', n, "device") && Same(st, st', n, "ssid") && Same(st, st', n, "key")
  {
    hide ConfigsIn, ShapeOf, Get, Fingerprint, Stored, EncryptionText;
    Literals.Configs();
    Literals.CommonOptions();
    Literals.RadioOptions();
    Literals.WifiOptions();
  }

  /** The section of the radio's guest network, there already or to be made. */
  function GuestName(guest: Option<string>, id: nat): string {
    guest.GetOr(NewGuestName(id))
  }

  lemma OnlyOptionsOf(st: Store, st': Store, n: string, names: set<string>)
    requires OptionsOf(st, st', n) && n in names
    ensures OnlySections(st, st', "wireless", names)
  {
    hide Get, ConfigsIn, ShapeOf, OnlySections;
    OnlyOptions(st, st', "wireless", n);
    OnlyMore(st, st', "wireless", {n}, names);
  }

  /** The switch of one section. */
  method SetSwitch(backend: UciBackend, n: string, disabled: bool)
    requires backend.Valid() && !backend.raised && Has(backend.View(), "wireless", n)
    modifies backend
    ensures backend.InBlock() && !backend.raised
    ensures ShapeOf(backend.View()) == ShapeOf(old(backend.View())) && OptionsOf(old(backend.View()), backend.View(), n)
    ensures SwitchIs(backend.View(), n, disabled)
    ensures forall o :: o != "disabled" ==> Get(backend.View(), "wireless", n, o) == Get(old(backend.View()), "wireless", n, o)
  {
    hide ConfigsIn, ShapeOf, KindIn, Get, StoreBool;
    backend.SetOption("wireless", n, "disabled", StoreBool(disabled));
  }

  /** Everything of the radio is switched off. */
  method SwitchOff(backend: UciBackend, device: string, iface: string, guest: Option<string>, ghost names: set<string>)
    requires backend.Valid() && !backend.raised && Has(backend.View(), "wireless", device) && Has(backend.View(), "wireless", iface)
    requires guest.Some? ==> Has(backend.View(), "wireless", guest.value) && guest.value in names && guest.value !in {device, iface}
    requires device != iface && device in names && iface in names
    modifies backend
    ensures backend.InBlock() && !backend.raised && ShapeOf(backend.View()) == ShapeOf(old(backend.View()))
    ensures OnlySections(old(backend.View()), backend.View(), "wireless", names)
    ensures SwitchIs(backend.View(), device, true) && SwitchIs(backend.View(), iface, true)
    ensures forall n, o :: o != "disabled" ==> Get(backend.View(), "wireless", n, o) == Get(old(backend.View()), "wireless", n, o)
  {
    hide ConfigsIn, ShapeOf, KindIn, Get, StoreBool, OnlySections;
    ghost var st := backend.View();
    SetSwitch(backend, device, true);
    ghost var st1 := backend.View();
    OnlyOptionsOf(st, st1, device, names);
    SetSwitch(backend, iface, true);
    ghost var st2 := backend.View();
    OnlyOptionsOf(st1, st2, iface, names);
    OnlyBoth(st, st1, st2, "wireless", names, names);
    assert names + names == names;
    if guest.Some? {
      SetSwitch(backend, guest.value, true);
      OnlyOptionsOf(st2, backend.View(), guest.value, names);
      OnlyBoth(st, st2, backend.View(), "wireless", names, names);
    }
  }

  /** The guest section: switched, on its device and, when it is enabled, filled. */
  method WriteGuest(backend: UciBackend, n: string, device: string, q: Request)
    requires backend.Valid() && !backend.raised && Has(backend.View(), "wireless", n) && q.radio.On? && device != ""
    modifies backend
    ensures backend.InBlock() && !backend.raised
    ensures ShapeOf(backend.View()) == ShapeOf(old(backend.View())) && OptionsOf(old(backend.View()), backend.View(), n)
    ensures GuestIs(backend.View(), n, q.radio)
    ensures Get(backend.View(), "wireless", n, "device") == Some(Text(device))
  {
    hide ConfigsIn, ShapeOf, KindIn, Get, StoreBool, Fingerprint, OptionsOf, CipherIs;
    Literals.Configs();
    Literals.CommonOptions();
    Literals.RadioOptions();
    Literals.WifiOptions();
    ghost var st := backend.View();
    SetSwitch(backend, n, !q.radio.guest.GuestOn?);
    ghost var st1 := backend.View();
    backend.SetOption("wireless", n, "device", device);
    ghost var st2 := backend.View();
    DeviceOnly(st1, st2, n, device);
    OptionsTwice(st, st1, st2, n);
    if q.radio.guest.GuestOn? {
      FillGuest(backend, n, q.id, q.radio);
      OptionsTwice(st, st2, backend.View(), n);
    }
  }

  lemma DeviceOnly(st: Store, st': Store, n: string, device: string)
    requires OptionIs(st, st', "wireless", n, "device", Stored(device))
    ensures OptionsOf(st, st', n) && Same(st, st', n, "disabled")
  {
    hide ConfigsIn, ShapeOf, Get, Fingerprint;
    Literals.Configs();
    Literals.CommonOptions();
    Literals.RadioOptions();
    Literals.WifiOptions();
  }

  /** The device and the interface of an enabled radio. */
  method SwitchOn(backend: UciBackend, device: string, iface: string, r: Radio, ghost names: set<string>)
    requires backend.Valid() && !backend.raised && Has(backend.View(), "wireless", device) && Has(backend.View(), "wireless", iface)
    requires device != iface && device in names && iface in names && r.On?
    modifies backend
    ensures backend.InBlock() && !backend.raised && ShapeOf(backend.View()) == ShapeOf(old(backend.View()))
    ensures OnlySections(old(backend.View()), backend.View(), "wireless", names)
    ensures SwitchIs(backend.View(), device, false) && SwitchIs(backend.View(), iface, false)
    ensures DeviceIs(backend.View(), device, r) && IfaceIs(backend.View(), iface, r)
    ensures forall n :: Get(backend.View(), "wireless", n, "device") == Get(old(backend.View()), "wireless", n, "device")
    ensures forall n, o :: n != device && n != iface ==> Get(backend.View(), "wireless", n, o) == Get(old(backend.View()), "wireless", n, o)
  {
    hide ConfigsIn, ShapeOf, KindIn, Get, StoreBool, OnlySections, DeviceIs, IfaceIs, Fingerprint;
    Literals.Configs();
    Literals.CommonOptions();
    Literals.RadioOptions();
    Literals.WifiOptions();
    ghost var st := backend.View();
    SetSwitch(backend, device, false);
    ghost var st1 := backend.View();
    SetSwitch(backend, iface, false);
    ghost var st2 := backend.View();
    WriteDevice(backend, device, r);
    ghost var st3 := backend.View();
    WriteIface(backend, iface, r);
    ghost var st4 := backend.View();
    OnlyOptionsOf(st, st1, device, names);
    OnlyOptionsOf(st1, st2, iface, names);
    OnlyOptionsOf(st2, st3, device, names);
    OnlyOptionsOf(st3, st4, iface, names);
    assert names + names == names;
    OnlyBoth(st, st1, st2, "wireless", names, names);
    OnlyBoth(st, st2, st3, "wireless", names, names);
    OnlyBoth(st, st3, st4, "wireless", names, names);
    DeviceKept(st3, st4, device, iface, r);
  }

  lemma DeviceKept(st: Store, st': Store, device: string, other: string, r: Radio)
    requires r.On? && DeviceIs(st, device, r) && OptionsOf(st, st', other) && device != other
    ensures DeviceIs(st', device, r)
  {
    hide Get, ConfigsIn, ShapeOf, Stored, ChannelText, BandText;
  }

  /** Where the sections of the radio are after its update. */
  ghost predicate PlacedIn(st: Store, st': Store, device: string, guest: Option<string>, q: Request) {
    var g := GuestName(guest, q.id);
    && Order(st', "wireless") ==
         (if q.radio.On? && guest.None? && !Has(st, "wireless", g) then Order(st, "wireless") + [g] else Order(st, "wireless"))
    && (forall n :: n != g ==> Kind(st', "wireless", n) == Kind(st, "wireless", n))
    && Kind(st', "wireless", g) == (if q.radio.On? && guest.None? then Some("wifi-iface") else Kind(st, "wireless", g))
    && (forall n :: n != g ==> Get(st', "wireless", n, "device") == Get(st, "wireless", n, "device"))
    && (q.radio.Off? ==> Same(st, st', g, "device"))
    && (q.radio.On? ==> Get(st', "wireless", g, "device") == Some(Text(device)))
  }

  /** `_update_wifi` */
  method UpdateRadio(backend: UciBackend, device: string, iface: string, guest: Option<string>, q: Request)
    returns (guestOn: bool)
    requires backend.Valid() && !backend.raised && device != ""
    requires Has(backend.View(), "wireless", device) && Has(backend.View(), "wireless", iface)
    requires guest.Some? ==> Has(backend.View(), "wireless", guest.value)
    requires device != iface && GuestName(guest, q.id) != device && GuestName(guest, q.id) != iface
    modifies backend
    ensures backend.InBlock() && !backend.raised
    ensures guestOn == (q.radio.On? && q.radio.guest.GuestOn?)
    ensures OnlySections(old(backend.View()), backend.View(), "wireless", {device, iface, GuestName(guest, q.id)})
    ensures RadioWritten(backend.View(), q.radio, device, iface, GuestName(guest, q.id))
    ensures PlacedIn(old(backend.View()), backend.View(), device, guest, q)
  {
    hide ConfigsIn, ShapeOf, KindIn, OrderIn, Get, StoreBool, OnlySections, GuestIs, DeviceIs, IfaceIs, NewGuestName, Fingerprint;
    Literals.Configs();
    Literals.CommonOptions();
    Literals.RadioOptions();
    Literals.WifiOptions();
    var g := GuestName(guest, q.id);
    ghost var st, names := backend.View(), {device, iface, g};
    if q.radio.Off? {
      SwitchOff(backend, device, iface, guest, names);
      return false;
    }
    SwitchOn(backend, device, iface, q.radio, names);
    ghost var st1 := backend.View();
    if guest.None? {
      HasNeedsConfig(st1, "wireless", device);
      backend.AddSection("wireless", "wifi-iface", g);
      OnlyAdded(st1, backend.View(), "wireless", g, "wifi-iface");
    } else {
      OnlyNothing(st1, "wireless", {g});
    }
    ghost var st2 := backend.View();
    WriteGuest(backend, g, device, q);
    GuestAfter(st, st1, st2, backend.View(), device, iface, g, q.radio);
    PlacedAfter(st, st1, st2, backend.View(), device, iface, guest, q);
    return q.radio.guest.GuestOn?;
  }

  lemma PlacedAfter(st: Store, st1: Store, st2: Store, st3: Store, device: string, iface: string, guest: Option<string>, q: Request)
    requires q.radio.On? && ShapeOf(st1) == ShapeOf(st) && GuestName(guest, q.id) != device
    requires forall n :: Get(st1, "wireless", n, "device") == Get(st, "wireless", n, "device")
    requires if guest.None? then SectionIs(st1, st2, "wireless", GuestName(guest, q.id), "wifi-iface") else st2 == st1
    requires ShapeOf(st3) == ShapeOf(st2) && OptionsOf(st2, st3, GuestName(guest, q.id))
    requires Get(st3, "wireless", GuestName(guest, q.id), "device") == Some(Text(device))
    ensures PlacedIn(st, st3, device, guest, q)
  {
    hide ConfigsIn, ShapeOf, KindIn, OrderIn, Get, NewGuestName, GuestName;
    var g := GuestName(guest, q.id);
    assert Order(st1, "wireless") + [] == Order(st1, "wireless");
    if guest.None? {
      assert Kind(st2, "wireless", g) == Some("wifi-iface");
      if Has(st1, "wireless", g) {
        assert Order(st2, "wireless") == Order(st1, "wireless") + [];
      } else {
        assert Order(st2, "wireless") == Order(st1, "wireless") + [g];
      }
    }
    assert forall n :: Kind(st2, "wireless", n) == Kind(st3, "wireless", n);
    assert forall n :: n != g ==> Kind(st2, "wireless", n) == Kind(st1, "wireless", n);
  }

  /** The guest section is written last and leaves the other two alone. */
  lemma GuestAfter(st: Store, st1: Store, st2: Store, st3: Store, device: string, iface: string, g: string, r: Radio)
    requires r.On? && g != device && g != iface
    requires OnlySections(st, st1, "wireless", {device, iface, g})
    requires SwitchIs(st1, device, false) && SwitchIs(st1, iface, false) && DeviceIs(st1, device, r) && IfaceIs(st1, iface, r)
    requires OnlySections(st1, st2, "wireless", {g}) && OptionsOf(st2, st3, g) && GuestIs(st3, g, r)
    ensures OnlySections(st, st3, "wireless", {device, iface, g})
    ensures RadioWritten(st3, r, device, iface, g)
  {
    hide ConfigsIn, ShapeOf, KindIn, Get, StoreBool, OnlySections, GuestIs;
    var names := {device, iface, g};
    OnlyOptionsOf(st2, st3, g, {g});
    OnlyBoth(st1, st2, st3, "wireless", {g}, {g});
    assert {g} + {g} == {g};
    OnlyBoth(st, st1, st3, "wireless", names, {g});
    assert names + {g} == names;
    OnlyOthers(st1, st3, "wireless", {g}, device);
    OnlyOthers(st1, st3, "wireless", {g}, iface);
    PartsKept(st1, st3, device, iface, r);
  }

  lemma PartsKept(st: Store, st': Store, device: string, iface: string, r: Radio)
    requires r.On? && SameOptions(st, st', "wireless", device) && SameOptions(st, st', "wireless", iface)
    requires SwitchIs(st, device, false) && SwitchIs(st, iface, false) && DeviceIs(st, device, r) && IfaceIs(st, iface, r)
    ensures SwitchIs(st', device, false) && SwitchIs(st', iface, false) && DeviceIs(st', device, r) && IfaceIs(st', iface, r)
  {
    hide Get, Stored, StoreBool, ChannelText, BandText, EncryptionText;
  }

  // ---------------------------------------------------------------- many radios

  /** One matching section per radio: a guest section with a radio's number is that radio's. */
  ghost predicate Tidy(st: Store) {
    && WellOrdered(st, "wireless")
    && forall id :: Has(st, "wireless", NewGuestName(id)) ==>
         Kind(st, "wireless", NewGuestName(id)) == Some("wifi-iface") && Serves(st, NewGuestName(id), RadioName(id), true)
  }

  /** A new guest section serves the radio that it is named after. */
  ghost predicate Own(st: Store, n: string) {
    forall id :: Get(st, "wireless", n, "device") == Some(Text(RadioName(id))) ==> n == NewGuestName(id)
  }

  /** Since the config was read, only guest sections were added, at the end. */
  ghost predicate Grown(data: Store, st: Store, extra: seq<string>) {
    && Order(st, "wireless") == Order(data, "wireless") + extra
    && (forall n :: n !in extra ==> Kind(st, "wireless", n) == Kind(data, "wireless", n))
    && (forall n :: n !in extra ==> Get(st, "wireless", n, "device") == Get(data, "wireless", n, "device"))
    && (forall n | n in extra ::
          !Has(data, "wireless", n) && Kind(st, "wireless", n) == Some("wifi-iface") && IsGuestIface(n) && Own(st, n))
  }

  lemma DecimalsDiffer(a: nat, b: nat)
    ensures Decimal(a) == Decimal(b) ==> a == b
  {
    DecimalReadsBack(a);
    DecimalReadsBack(b);
  }

  lemma NumbersTellApart(a: nat, b: nat)
    ensures (RadioName(a) == RadioName(b) ==> a == b) && (NewGuestName(a) == NewGuestName(b) ==> a == b)
    ensures IsGuestIface(NewGuestName(a)) && RadioName(a) != NewGuestName(b) && RadioName(a) != ""
  {
    DecimalsDiffer(a, b);
    hide Decimal;
    assert RadioName(a)[5..] == Decimal(a) && RadioName(b)[5..] == Decimal(b);
    assert NewGuestName(a)[12..] == Decimal(a) && NewGuestName(b)[12..] == Decimal(b);
    assert NewGuestName(a)[0] == 'g' && NewGuestName(b)[0] == 'g' && RadioName(a)[0] == 'r';
  }

  lemma {:induction false} ServingComplete(st: Store, names: seq<string>, device: string, guest: bool, n: string)
    requires n in names && Serves(st, n, device, guest)
    ensures FirstServing(st, names, device, guest).Some?
  {
    hide Serves;
    if !Serves(st, names[0], device, guest) { ServingComplete(st, names[1..], device, guest, n); }
  }

  /** A radio without a guest section has a free name for one. */
  lemma FreshName(data: Store, id: nat)
    requires Tidy(data) && Iface(data, RadioName(id), true) == None
    ensures !Has(data, "wireless", NewGuestName(id))
  {
    var n := NewGuestName(id);
    if Has(data, "wireless", n) {
      hide Get, ConfigsIn, ShapeOf, KindIn, OrderIn, NewGuestName, RadioName, IsGuestIface;
      assert n in Order(data, "wireless");
      OfKindComplete(data, "wireless", Order(data, "wireless"), "wifi-iface", n);
      ServingComplete(data, SectionsByType(data, "wireless", "wifi-iface"), RadioName(id), true, n);
    }
  }

  /** The sections of a request, as the config that was read has them. */
  ghost function SectionsOf(data: Store, q: Request): set<string>
    requires Iface(data, RadioName(q.id), false).Some?
  {
    {RadioName(q.id), Iface(data, RadioName(q.id), false).value, GuestName(Iface(data, RadioName(q.id), true), q.id)}
  }

  lemma IfaceServes(data: Store, device: string, guest: bool)
    requires Iface(data, device, guest).Some?
    ensures var n := Iface(data, device, guest).value;
      Serves(data, n, device, guest) && Kind(data, "wireless", n) == Some("wifi-iface")
  {
    hide Serves, OfKind;
  }

  lemma DeviceIsThere(data: Store, id: nat)
    requires DeviceSection(data, id).Some?
    ensures Kind(data, "wireless", RadioName(id)) == Some("wifi-device") && DeviceSection(data, id).value == RadioName(id)
  {
    hide OfKind;
  }

  /** The three sections of one radio are three. */
  lemma ThreeSections(data: Store, q: Request)
    requires DeviceSection(data, q.id).Some? && Iface(data, RadioName(q.id), false).Some?
    ensures var device, iface := RadioName(q.id), Iface(data, RadioName(q.id), false).value;
      var g := GuestName(Iface(data, RadioName(q.id), true), q.id);
      device != iface && g != device && g != iface && device != ""
  {
    hide Iface, Get, ConfigsIn, ShapeOf, KindIn, RadioName, NewGuestName, IsGuestIface, Decimal, DeviceSection;
    DeviceIsThere(data, q.id);
    IfaceServes(data, RadioName(q.id), false);
    if Iface(data, RadioName(q.id), true).Some? { IfaceServes(data, RadioName(q.id), true); }
    NumbersTellApart(q.id, q.id);
  }

  /** Two radios have no section in common. */
  lemma RadiosApart(data: Store, p: Request, q: Request)
    requires Tidy(data) && p.id != q.id
    requires DeviceSection(data, p.id).Some? && Iface(data, RadioName(p.id), false).Some?
    requires DeviceSection(data, q.id).Some? && Iface(data, RadioName(q.id), false).Some?
    ensures SectionsOf(data, p) !! SectionsOf(data, q)
  {
    hide Iface, Get, ConfigsIn, ShapeOf, KindIn, RadioName, NewGuestName, IsGuestIface, Decimal, DeviceSection, Tidy;
    DeviceIsThere(data, p.id);
    DeviceIsThere(data, q.id);
    IfaceServes(data, RadioName(p.id), false);
    IfaceServes(data, RadioName(q.id), false);
    NumbersTellApart(p.id, q.id);
    NumbersTellApart(q.id, p.id);
    GuestServes(data, p);
    GuestServes(data, q);
  }

  /** The guest section of a radio is its own: there and serving it, or not there yet. */
  lemma GuestServes(data: Store, q: Request)
    requires Tidy(data)
    ensures var g := GuestName(Iface(data, RadioName(q.id), true), q.id);
      IsGuestIface(g) &&
      if Has(data, "wireless", g) then Serves(data, g, RadioName(q.id), true) && Kind(data, "wireless", g) == Some("wifi-iface")
      else g == NewGuestName(q.id)
  {
    NumbersTellApart(q.id, q.id);
    if Iface(data, RadioName(q.id), true).Some? {
      IfaceServes(data, RadioName(q.id), true);
    } else {
      FreshName(data, q.id);
    }
    hide Iface, Get, ConfigsIn, ShapeOf, KindIn, RadioName, NewGuestName, Decimal, Tidy;
  }

  /** What an update adds keeps the shape of things. */
  lemma GrownStep(data: Store, st: Store, st': Store, extra: seq<string>, q: Request)
    requires Tidy(data) && Grown(data, st, extra) && NewGuestName(q.id) !in extra
    requires PlacedIn(st, st', RadioName(q.id), Iface(data, RadioName(q.id), true), q)
    ensures Grown(data, st', if q.radio.On? && Iface(data, RadioName(q.id), true).None? then extra + [NewGuestName(q.id)] else extra)
  {
    var guest := Iface(data, RadioName(q.id), true);
    var g := GuestName(guest, q.id);
    if guest.None? { FreshName(data, q.id); } else { IfaceServes(data, RadioName(q.id), true); }
    NumbersTellApart(q.id, q.id);
    hide Iface, Get, ConfigsIn, ShapeOf, KindIn, OrderIn, RadioName, NewGuestName, Decimal, Tidy, IsGuestIface, Own;
    if q.radio.On? && guest.None? {
      OwnFresh(st', q.id);
      AddedGrown(data, st, st', extra, g);
    } else {
      SameGrown(data, st, st', extra, g);
    }
  }

  lemma AddedGrown(data: Store, st: Store, st': Store, extra: seq<string>, g: string)
    requires Grown(data, st, extra) && g !in extra && !Has(data, "wireless", g) && IsGuestIface(g) && Own(st', g)
    requires Order(st', "wireless") == (if Has(st, "wireless", g) then Order(st, "wireless") else Order(st, "wireless") + [g])
    requires forall n :: n != g ==> Kind(st', "wireless", n) == Kind(st, "wireless", n)
    requires Kind(st', "wireless", g) == Some("wifi-iface")
    requires forall n :: n != g ==> Get(st', "wireless", n, "device") == Get(st, "wireless", n, "device")
    ensures Grown(data, st', extra + [g])
  {
    hide Get, ConfigsIn, ShapeOf, KindIn, OrderIn, RadioName, NewGuestName, IsGuestIface;
    assert !Has(st, "wireless", g);
    assert Order(data, "wireless") + extra + [g] == Order(data, "wireless") + (extra + [g]);
    forall n | n in extra ensures Own(st', n) { OwnKept(st, st', n); }
  }

  lemma OwnKept(st: Store, st': Store, n: string)
    requires Own(st, n) && Get(st', "wireless", n, "device") == Get(st, "wireless", n, "device")
    ensures Own(st', n)
  {
    hide Get, RadioName, NewGuestName;
  }

  lemma SameGrown(data: Store, st: Store, st': Store, extra: seq<string>, g: string)
    requires Grown(data, st, extra) && Order(st', "wireless") == Order(st, "wireless") && g !in extra
    requires forall n :: Kind(st', "wireless", n) == Kind(st, "wireless", n)
    requires forall n :: n != g ==> Get(st', "wireless", n, "device") == Get(st, "wireless", n, "device")
    requires Get(st', "wireless", g, "device") == Get(data, "wireless", g, "device")
    ensures Grown(data, st', extra)
  {
    hide Get, ConfigsIn, ShapeOf, KindIn, OrderIn, RadioName, NewGuestName, IsGuestIface, Own;
    forall n | n in extra ensures Own(st', n) { OwnKept(st, st', n); }
  }

  lemma OwnFresh(st: Store, id: nat)
    requires Get(st, "wireless", NewGuestName(id), "device") == Some(Text(RadioName(id)))
    ensures Own(st, NewGuestName(id))
  {
    hide Get, RadioName, NewGuestName;
    forall other
      ensures Get(st, "wireless", NewGuestName(id), "device") == Some(Text(RadioName(other))) ==>
        NewGuestName(id) == NewGuestName(other)
    {
      NumbersTellApart(id, other);
    }
  }

  // ---------------------------------------------------------------- the loop

  lemma WrittenSurvives(st: Store, st': Store, r: Radio, device: string, iface: string, guest: string, names: set<string>)
    requires RadioWritten(st, r, device, iface, guest) && OnlySections(st, st', "wireless", names)
    requires device !in names && iface !in names && guest !in names
    ensures RadioWritten(st', r, device, iface, guest)
  {
    OnlyOthers(st, st', "wireless", names, device);
    OnlyOthers(st, st', "wireless", names, iface);
    OnlyOthers(st, st', "wireless", names, guest);
    SameWritten(st, st', r, device, iface, guest);
  }

  lemma SameWritten(st: Store, st': Store, r: Radio, device: string, iface: string, guest: string)
    requires RadioWritten(st, r, device, iface, guest)
    requires SameOptions(st, st', "wireless", device) && SameOptions(st, st', "wireless", iface) && SameOptions(st, st', "wireless", guest)
    ensures RadioWritten(st', r, device, iface, guest)
  {
    hide Get, Stored, StoreBool, ChannelText, BandText, EncryptionText;
  }

  /** The request is written in the sections that the config had for it. */
  ghost predicate Written(data: Store, st: Store, q: Request) {
    && DeviceSection(data, q.id).Some?
    && Iface(data, RadioName(q.id), false).Some?
    && RadioWritten(st, q.radio, RadioName(q.id), Iface(data, RadioName(q.id), false).value,
                    GuestName(Iface(data, RadioName(q.id), true), q.id))
    && (q.radio.On? ==>
          Get(st, "wireless", GuestName(Iface(data, RadioName(q.id), true), q.id), "device") == Some(Text(RadioName(q.id))))
  }

  lemma WrittenStep(data: Store, st: Store, st': Store, p: Request, q: Request)
    requires Tidy(data) && Written(data, st, p) && p.id != q.id
    requires DeviceSection(data, q.id).Some? && Iface(data, RadioName(q.id), false).Some?
    requires OnlySections(st, st', "wireless", SectionsOf(data, q))
    ensures Written(data, st', p)
  {
    hide Iface, Get, RadioName, NewGuestName, Tidy, DeviceSection, RadioWritten, OnlySections, GuestName;
    RadiosApart(data, p, q);
    var g := GuestName(Iface(data, RadioName(p.id), true), p.id);
    WrittenSurvives(st, st', p.radio, RadioName(p.id), Iface(data, RadioName(p.id), false).value, g, SectionsOf(data, q));
    OnlyOthers(st, st', "wireless", SectionsOf(data, q), g);
  }

  /** Sections that were there when the config was read are still there. */
  ghost predicate Still(data: Store, st: Store) {
    forall n :: Has(data, "wireless", n) ==> Has(st, "wireless", n)
  }

  lemma StillStep(data: Store, st: Store, st': Store, device: string, guest: Option<string>, q: Request)
    requires Still(data, st) && PlacedIn(st, st', device, guest, q)
    ensures Still(data, st')
  {
    hide Get, ConfigsIn, ShapeOf, KindIn, OrderIn, NewGuestName;
  }

  /** New guest names belong to the requests already served. */
  ghost predicate NamedFor(extra: seq<string>, qs: seq<Request>) {
    forall id | NewGuestName(id) in extra :: exists k :: 0 <= k < |qs| && qs[k].id == id
  }

  ghost predicate Numbered(qs: seq<Request>) {
    forall i, j | 0 <= i < j < |qs| :: qs[i].id != qs[j].id
  }

  /** Where the loop stands, given a tidy config and requests for different radios. */
  ghost predicate Progress(data: Store, st: Store, extra: seq<string>, qs: seq<Request>) {
    && Grown(data, st, extra)
    && NamedFor(extra, qs)
    && (forall k | 0 <= k < |qs| :: Written(data, st, qs[k]))
    && (forall k | 0 <= k < |qs| && qs[k].radio.On? && Iface(data, RadioName(qs[k].id), true).None? ::
          NewGuestName(qs[k].id) in extra)
  }

  lemma ProgressStep(data: Store, st: Store, st': Store, extra: seq<string>, qs: seq<Request>, q: Request)
    returns (extra': seq<string>)
    requires Tidy(data) && Progress(data, st, extra, qs)
    requires forall k | 0 <= k < |qs| :: qs[k].id != q.id
    requires DeviceSection(data, q.id).Some? && Iface(data, RadioName(q.id), false).Some?
    requires OnlySections(st, st', "wireless", SectionsOf(data, q)) && Written(data, st', q)
    requires PlacedIn(st, st', RadioName(q.id), Iface(data, RadioName(q.id), true), q)
    ensures Progress(data, st', extra', qs + [q])
  {
    hide Iface, Get, RadioName, NewGuestName, Tidy, DeviceSection, OnlySections, Grown, PlacedIn, SectionsOf, Written, GuestName;
    var isNew := q.radio.On? && Iface(data, RadioName(q.id), true).None?;
    extra' := if isNew then extra + [NewGuestName(q.id)] else extra;
    GrownStep(data, st, st', extra, q);
    forall k | 0 <= k < |qs| ensures Written(data, st', qs[k]) {
      WrittenStep(data, st, st', qs[k], q);
    }
    NamedStep(extra, qs, q, extra', isNew);
  }

  lemma NamedStep(extra: seq<string>, qs: seq<Request>, q: Request, extra': seq<string>, isNew: bool)
    requires NamedFor(extra, qs) && extra' == if isNew then extra + [NewGuestName(q.id)] else extra
    ensures NamedFor(extra', qs + [q])
  {
    hide NewGuestName;
    var all := qs + [q];
    forall id | NewGuestName(id) in extra' ensures exists k :: 0 <= k < |all| && all[k].id == id {
      NumbersTellApart(id, q.id);
      if NewGuestName(id) in extra {
        var k :| 0 <= k < |qs| && qs[k].id == id;
        assert all[k].id == id;
      } else {
        assert all[|qs|].id == id;
      }
    }
  }

  /** The loop of `update_settings`: it stops at the first request that is not possible. */
  method UpdateRadios(backend: UciBackend, data: Store, bands: Bands, qs: seq<Request>)
    returns (enableGuest: bool, ghost extra: seq<string>)
    requires backend.Valid() && !backend.raised && backend.View() == data
    modifies backend
    ensures backend.InBlock()
    ensures backend.raised == !(forall k | 0 <= k < |qs| :: Possible(data, bands, qs[k]))
    ensures !backend.raised ==>
      && Still(data, backend.View()) && OnlyConfig(data, backend.View(), "wireless")
      && enableGuest == (exists k :: 0 <= k < |qs| && qs[k].radio.On? && qs[k].radio.guest.GuestOn?)
    ensures !backend.raised && Tidy(data) && Numbered(qs) ==> Progress(data, backend.View(), extra, qs)
  {
    hide Iface, Get, RadioName, NewGuestName, Tidy, DeviceSection, OnlySections, PlacedIn, Written, Progress, Offered, ConfigsIn, ShapeOf, KindIn, OrderIn, GuestName, OnlyConfig;
    enableGuest, extra := false, [];
    Start(data);
    var i := 0;
    while i < |qs|
      invariant 0 <= i <= |qs|
      invariant backend.InBlock() && !backend.raised
      invariant forall k | 0 <= k < i :: Possible(data, bands, qs[k])
      invariant Still(data, backend.View()) && OnlyConfig(data, backend.View(), "wireless")
      invariant enableGuest == exists k :: 0 <= k < i && qs[k].radio.On? && qs[k].radio.guest.GuestOn?
      invariant Tidy(data) && Numbered(qs) ==> Progress(data, backend.View(), extra, qs[..i])
    {
      var q := qs[i];
      var device := RadioName(q.id);
      if DeviceSection(data, q.id).None? || Iface(data, device, false).None? || !Offered(bands(device), q.radio) {
        assert !Possible(data, bands, qs[i]);
        backend.Raise();
        return;
      }
      ghost var st := backend.View();
      var guestOn := ServeRadio(backend, data, q);
      OnlyConfigTwice(data, st, backend.View(), "wireless");
      enableGuest := enableGuest || guestOn;
      if Tidy(data) && Numbered(qs) {
        extra := ProgressStep(data, st, backend.View(), extra, qs[..i], q);
      }
      assert qs[..i + 1] == qs[..i] + [q];
      i := i + 1;
    }
    assert qs[..i] == qs;
  }

  lemma Start(data: Store)
    ensures Still(data, data) && Progress(data, data, [], []) && OnlyConfig(data, data, "wireless")
  {
    assert Order(data, "wireless") + [] == Order(data, "wireless");
  }

  /** One possible request. */
  method ServeRadio(backend: UciBackend, data: Store, q: Request) returns (guestOn: bool)
    requires backend.Valid() && !backend.raised && Still(data, backend.View())
    requires DeviceSection(data, q.id).Some? && Iface(data, RadioName(q.id), false).Some?
    modifies backend
    ensures backend.InBlock() && !backend.raised && Still(data, backend.View())
    ensures guestOn == (q.radio.On? && q.radio.guest.GuestOn?)
    ensures OnlySections(old(backend.View()), backend.View(), "wireless", SectionsOf(data, q))
    ensures OnlyConfig(old(backend.View()), backend.View(), "wireless")
    ensures Written(data, backend.View(), q)
    ensures PlacedIn(old(backend.View()), backend.View(), RadioName(q.id), Iface(data, RadioName(q.id), true), q)
  {
    hide Iface, Get, RadioName, NewGuestName, DeviceSection, OnlySections, PlacedIn, RadioWritten, ConfigsIn, ShapeOf, KindIn, OrderIn, GuestName, Serves;
    ghost var st := backend.View();
    var device, guest := RadioName(q.id), Iface(data, RadioName(q.id), true);
    var iface := Iface(data, device, false).value;
    DeviceIsThere(data, q.id);
    IfaceServes(data, device, false);
    if guest.Some? { IfaceServes(data, device, true); }
    ThreeSections(data, q);
    guestOn := UpdateRadio(backend, device, iface, guest, q);
    OnlyItsConfig(st, backend.View(), "wireless", SectionsOf(data, q));
    StillStep(data, st, backend.View(), device, guest, q);
    if q.radio.On? { PlacedDevice(st, backend.View(), device, guest, q); }
  }

  lemma PlacedDevice(st: Store, st': Store, device: string, guest: Option<string>, q: Request)
    requires PlacedIn(st, st', device, guest, q) && q.radio.On?
    ensures Get(st', "wireless", GuestName(guest, q.id), "device") == Some(Text(device))
  {
    hide Get, NewGuestName;
  }

  // ---------------------------------------------------------------- reading back

  lemma CiphersReadBack(e: Encryption)
    requires e != Custom
    ensures EncryptionOf(EncryptionText(e)) == e && EncryptionText(e) != "" && EncryptionText(e) != "none"
  {
    assert "psk2" <= "psk2+ccmp" && "sae"[0] != 'p' && "sae-mixed"[0] != 'p' && |"sae"| != |"sae-mixed"|;
    assert |"psk2+ccmp"| != |"none"| && |"sae"| != |"none"| && |"sae-mixed"| != |"none"|;
  }

  lemma ChannelReadsBack(st: Store, device: string, channel: nat)
    requires Get(st, "wireless", device, "channel") == Stored(ChannelText(channel))
    ensures ReadChannel(st, device) == Some(channel)
  {
    if channel > 0 {
      DecimalReadsBack(channel);
      DigitsOnly(Decimal(channel), 'a');
      assert "auto"[0] == 'a';
    }
    hide Get, Decimal, ReadHwmode;
  }

  lemma HwmodeReadsBack(st: Store, device: string, m: Hwmode)
    requires Get(st, "wireless", device, "band") == Stored(BandText(m))
    ensures ReadHwmode(st, device) == Text(HwmodeText(m))
  {
    hide Get;
    assert "2g"[0] != "5g"[0];
  }

  lemma GuestReadsBack(st: Store, g: string, r: Radio, ssid: string)
    requires r.On? && GuestIs(st, g, r) && (r.guest.GuestOn? ==> r.guest.ssid != "")
    ensures var shown := ReadGuest(st, Some(g), ssid);
      && (ReadCipher(st, g).Some? ==> shown.Some?)
      && (shown.Some? ==>
            && shown.value.enabled == r.guest.GuestOn?
            && (r.guest.GuestOn? ==>
                  && shown.value.ssid == Text(r.guest.ssid)
                  && shown.value.password == Text(r.guest.password)
                  && (r.guest.encryption != Custom ==> shown.value.encryption == r.guest.encryption)))
  {
    BoolReadsBack(st, "wireless", g, "disabled", !r.guest.GuestOn?, false);
    if r.guest.GuestOn? && r.guest.encryption != Custom { CiphersReadBack(r.guest.encryption); }
    hide Get, StoreBool, EncryptionOf, EncryptionText, ReadBool;
  }

  /** An enabled radio, read from its three sections. */
  lemma EnabledRadioReadsBack(st: Store, r: Radio, device: string, iface: string, g: string)
    requires r.On? && Accepted(r) && RadioWritten(st, r, device, iface, g)
    ensures ReadCipher(st, iface).Some? && ReadCipher(st, g).Some? ==> ReadRadio(st, device, iface, Some(g)).Some?
    ensures ReadRadio(st, device, iface, Some(g)).Some? ==> ShowsRadio(ReadRadio(st, device, iface, Some(g)).value, r)
  {
    BoolReadsBack(st, "wireless", device, "disabled", false, false);
    BoolReadsBack(st, "wireless", iface, "disabled", false, false);
    BoolReadsBack(st, "wireless", iface, "hidden", r.hidden, false);
    ChannelReadsBack(st, device, r.channel);
    HwmodeReadsBack(st, device, r.hwmode);
    GuestReadsBack(st, g, r, PyText(GetOr(st, "wireless", iface, "ssid", "Turris")));
    if r.encryption != Custom { CiphersReadBack(r.encryption); }
    hide Get, StoreBool, EncryptionOf, EncryptionText, ReadBool, ReadChannel, ReadHwmode, ReadGuest, GuestIs, BandText, ChannelText, HwmodeText, PyText;
  }

  /** A disabled radio is shown as disabled, if it is shown. */
  lemma DisabledRadioReadsBack(st: Store, r: Radio, device: string, iface: string, g: string, guest: Option<string>)
    requires r.Off? && RadioWritten(st, r, device, iface, g)
    ensures ReadRadio(st, device, iface, guest).Some? ==> ShowsRadio(ReadRadio(st, device, iface, guest).value, r)
  {
    BoolReadsBack(st, "wireless", device, "disabled", true, false);
    hide Get, StoreBool, EncryptionOf, ReadBool, ReadChannel, ReadHwmode, ReadGuest, PyText;
  }

  lemma {:induction false} FirstServingSame(data: Store, st: Store, names: seq<string>, more: seq<string>, device: string, guest: bool)
    requires forall n | n in names :: Get(st, "wireless", n, "device") == Get(data, "wireless", n, "device")
    ensures FirstServing(st, names + more, device, guest) ==
      if FirstServing(data, names, device, guest).Some? then FirstServing(data, names, device, guest)
      else FirstServing(st, more, device, guest)
  {
    hide Get, IsGuestIface;
    if names == [] {
      assert names + more == more;
    } else {
      assert (names + more)[1..] == names[1..] + more;
      FirstServingSame(data, st, names[1..], more, device, guest);
    }
  }

  lemma {:induction false} AllOfKind(st: Store, names: seq<string>, kind: string)
    requires forall n | n in names :: Kind(st, "wireless", n) == Some(kind)
    ensures OfKind(st, "wireless", names, kind) == names
  {
    hide Kind;
    if names != [] { AllOfKind(st, names[1..], kind); }
  }

  /** The interface sections are the old ones and then the new guest sections. */
  lemma IfacesGrown(data: Store, st: Store, extra: seq<string>)
    requires WellOrdered(data, "wireless") && Grown(data, st, extra)
    ensures SectionsByType(st, "wireless", "wifi-iface") == SectionsByType(data, "wireless", "wifi-iface") + extra
    ensures forall n | n in SectionsByType(data, "wireless", "wifi-iface") :: n !in extra
  {
    hide ConfigsIn, ShapeOf, KindIn, OrderIn, Get, Own, IsGuestIface;
    var names := Order(data, "wireless");
    assert forall n | n in names :: n !in extra;
    OfKindAppends(st, "wireless", names, extra, "wifi-iface");
    OfKindSame(data, st, "wireless", names, "wifi-iface");
    AllOfKind(st, extra, "wifi-iface");
    hide OfKind;
    forall n | n in SectionsByType(data, "wireless", "wifi-iface") ensures n !in extra {
      assert n in names;
    }
  }

  lemma IfaceSame(data: Store, st: Store, extra: seq<string>, device: string)
    requires WellOrdered(data, "wireless") && Grown(data, st, extra) && Iface(data, device, false).Some?
    ensures Iface(st, device, false) == Iface(data, device, false)
  {
    IfacesGrown(data, st, extra);
    hide ConfigsIn, ShapeOf, KindIn, OrderIn, Get, Own, IsGuestIface, SectionsByType;
    FirstServingSame(data, st, SectionsByType(data, "wireless", "wifi-iface"), extra, device, false);
  }

  /** The guest section that the reader finds is the one that was written. */
  lemma GuestFound(data: Store, st: Store, extra: seq<string>, q: Request)
    requires Tidy(data) && Grown(data, st, extra)
    requires Get(st, "wireless", GuestName(Iface(data, RadioName(q.id), true), q.id), "device") == Some(Text(RadioName(q.id)))
    requires Iface(data, RadioName(q.id), true).None? ==> NewGuestName(q.id) in extra
    ensures Iface(st, RadioName(q.id), true) == Some(GuestName(Iface(data, RadioName(q.id), true), q.id))
  {
    IfacesGrown(data, st, extra);
    NumbersTellApart(q.id, q.id);
    hide ConfigsIn, ShapeOf, KindIn, OrderIn, Get, IsGuestIface, SectionsByType, RadioName, NewGuestName;
    FirstServingSame(data, st, SectionsByType(data, "wireless", "wifi-iface"), extra, RadioName(q.id), true);
    if Iface(data, RadioName(q.id), true).None? {
      ServingComplete(st, extra, RadioName(q.id), true, NewGuestName(q.id));
      hide FirstServing;
      var n := FirstServing(st, extra, RadioName(q.id), true).value;
      assert n in extra && Own(st, n);
    }
  }

  /** A request reads back: its radio shows what was asked whenever it is shown, and an enabled one
      is shown unless a custom cipher is stored as a list. */
  ghost predicate ReadsBack(st: Store, q: Request) {
    var shown := ReadDevice(st, q.id);
    && (shown.Some? ==> ShowsRadio(shown.value, q.radio))
    && (q.radio.On? && (forall n :: ReadCipher(st, n).Some?) ==> shown.Some?)
    && (q.radio.On? && q.radio.encryption != Custom && q.radio.guest.GuestOn? && q.radio.guest.encryption != Custom ==> shown.Some?)
  }

  lemma DeviceSame(data: Store, st: Store, extra: seq<string>, id: nat)
    requires WellOrdered(data, "wireless") && Grown(data, st, extra) && DeviceSection(data, id).Some?
    ensures DeviceSection(st, id) == Some(RadioName(id))
  {
    hide ConfigsIn, ShapeOf, KindIn, OrderIn, Get, RadioName, Own, IsGuestIface, Export.IsAnonymous;
    var n := RadioName(id);
    DeviceIsThere(data, id);
    assert n in Order(data, "wireless");
    assert n !in extra;
    assert n in Order(st, "wireless");
    OfKindComplete(st, "wireless", Order(st, "wireless"), "wifi-device", n);
  }

  lemma NotCustomReadable(st: Store, q: Request, device: string, iface: string, g: string)
    requires q.radio.On? && RadioWritten(st, q.radio, device, iface, g)
    ensures q.radio.encryption != Custom ==> ReadCipher(st, iface).Some?
    ensures q.radio.guest.GuestOn? && q.radio.guest.encryption != Custom ==> ReadCipher(st, g).Some?
  {
    hide Get, StoreBool, ChannelText, BandText;
    if q.radio.encryption != Custom { CiphersReadBack(q.radio.encryption); }
    if q.radio.guest.GuestOn? && q.radio.guest.encryption != Custom { CiphersReadBack(q.radio.guest.encryption); }
  }

  lemma SectionsReadBack(st: Store, q: Request, device: string, iface: string, g: string)
    requires DeviceSection(st, q.id) == Some(device) && Iface(st, device, false) == Some(iface)
    requires q.radio.On? ==> Iface(st, device, true) == Some(g)
    requires RadioWritten(st, q.radio, device, iface, g) && Accepted(q.radio)
    ensures ReadsBack(st, q)
  {
    hide Get, DeviceSection, Iface, RadioWritten, ReadRadio, ReadCipher, Accepted, ShowsRadio;
    if q.radio.On? {
      EnabledRadioReadsBack(st, q.radio, device, iface, g);
      NotCustomReadable(st, q, device, iface, g);
    } else {
      DisabledRadioReadsBack(st, q.radio, device, iface, g, Iface(st, device, true));
    }
  }

  lemma ProgressReadsBack(data: Store, st: Store, extra: seq<string>, qs: seq<Request>, k: nat)
    requires Tidy(data) && Progress(data, st, extra, qs) && k < |qs| && Accepted(qs[k].radio)
    ensures ReadsBack(st, qs[k])
  {
    hide ConfigsIn, ShapeOf, KindIn, OrderIn, Get, RadioName, NewGuestName, Iface, DeviceSection, Grown, RadioWritten, GuestName, Accepted, ReadsBack, WellOrdered;
    var q := qs[k];
    assert Written(data, st, q);
    var device, iface := RadioName(q.id), Iface(data, RadioName(q.id), false).value;
    var g := GuestName(Iface(data, RadioName(q.id), true), q.id);
    DeviceSame(data, st, extra, q.id);
    IfaceSame(data, st, extra, device);
    if q.radio.On? { GuestFound(data, st, extra, q); }
    SectionsReadBack(st, q, device, iface, g);
  }

  // ---------------------------------------------------------------- the update

  /** `update_regulator_domain` */
  method UpdateRegulator(backend: UciBackend, data: Store, country: string)
    requires backend.Valid() && !backend.raised && Still(data, backend.View())
    modifies backend
    ensures backend.InBlock() && !backend.raised && ShapeOf(backend.View()) == ShapeOf(old(backend.View()))
    ensures forall c, s, o :: !(c == "wireless" && o == "country") ==>
      Get(backend.View(), c, s, o) == Get(old(backend.View()), c, s, o)
    ensures forall s | s in SectionsByType(data, "wireless", "wifi-device") ::
      Get(backend.View(), "wireless", s, "country") == Stored(country)
  {
    hide ConfigsIn, ShapeOf, KindIn, Get, SectionsByType, Stored;
    var devices := SectionsByType(data, "wireless", "wifi-device");
    var i := 0;
    while i < |devices|
      invariant 0 <= i <= |devices|
      invariant backend.InBlock() && !backend.raised && ShapeOf(backend.View()) == ShapeOf(old(backend.View()))
      invariant forall c, s, o :: !(c == "wireless" && o == "country") ==>
        Get(backend.View(), c, s, o) == Get(old(backend.View()), c, s, o)
      invariant forall j | 0 <= j < i :: Get(backend.View(), "wireless", devices[j], "country") == Stored(country)
    {
      assert devices[i] in devices;
      assert Has(data, "wireless", devices[i]);
      backend.SetOption("wireless", devices[i], "country", country);
      i := i + 1;
    }
  }

  /** Countries are nobody's concern here. */
  lemma CountryKeeps(data: Store, st: Store, st': Store, extra: seq<string>, qs: seq<Request>)
    requires Progress(data, st, extra, qs) && ShapeOf(st') == ShapeOf(st)
    requires forall s, o :: o != "country" ==> Get(st', "wireless", s, o) == Get(st, "wireless", s, o)
    ensures Progress(data, st', extra, qs)
  {
    hide ConfigsIn, ShapeOf, KindIn, OrderIn, Get, RadioName, NewGuestName, Iface, DeviceSection, RadioWritten, GuestName, Own, IsGuestIface, Fingerprint;
    Literals.CommonOptions();
    Literals.RadioOptions();
    forall n | n in extra ensures Own(st', n) { OwnKept(st, st', n); }
    forall k | 0 <= k < |qs| ensures Written(data, st', qs[k]) {
      CountryKeepsRadio(st, st', qs[k].radio, RadioName(qs[k].id), Iface(data, RadioName(qs[k].id), false).value,
                        GuestName(Iface(data, RadioName(qs[k].id), true), qs[k].id));
    }
  }

  lemma CountryKeepsRadio(st: Store, st': Store, r: Radio, device: string, iface: string, g: string)
    requires RadioWritten(st, r, device, iface, g)
    requires forall s, o :: o != "country" ==> Get(st', "wireless", s, o) == Get(st, "wireless", s, o)
    ensures RadioWritten(st', r, device, iface, g)
  {
    hide Get, Stored, StoreBool, ChannelText, BandText, EncryptionText, Fingerprint;
    Literals.CommonOptions();
    Literals.RadioOptions();
    Literals.Configs();
    Literals.WifiOptions();
  }

  /** What the other configs' edits leave of the progress. */
  lemma WirelessKept(data: Store, st: Store, st': Store, extra: seq<string>, qs: seq<Request>)
    requires ConfigKept(st, st', "wireless")
    ensures Progress(data, st, extra, qs) ==> Progress(data, st', extra, qs)
    ensures Still(data, st) ==> Still(data, st')
  {
    hide ConfigsIn, ShapeOf, KindIn, OrderIn, Get, RadioName, NewGuestName, Iface, DeviceSection, RadioWritten, GuestName, Own, IsGuestIface;
    if Progress(data, st, extra, qs) {
      forall n | n in extra ensures Own(st', n) { OwnKept(st, st', n); }
      forall k | 0 <= k < |qs| ensures Written(data, st', qs[k]) {
        SameWritten(st, st', qs[k].radio, RadioName(qs[k].id), Iface(data, RadioName(qs[k].id), false).value,
                    GuestName(Iface(data, RadioName(qs[k].id), true), qs[k].id));
      }
    }
  }

  /** The country of the system config; None where its section is missing. */
  function Country(st: Store): Option<string> {
    var sections := SectionsByType(st, "system", "system");
    if sections == [] then None else Some(PyText(GetOr(st, "system", sections[0], "_country", "00")))
  }

  /** Guest network and countries, after the radios. */
  method FinishUpdate(backend: UciBackend, data: Store, enableGuest: bool, ghost extra: seq<string>, ghost qs: seq<Request>)
    requires backend.Valid() && !backend.raised && Still(data, backend.View()) && OnlyConfig(data, backend.View(), "wireless")
    requires Configs(backend.View()) == Configs(data)
    modifies backend
    ensures backend.InBlock()
    ensures backend.raised == !((enableGuest ==> Guest.EnablingPossible(data)) && Country(data).Some?)
    ensures !backend.raised && Progress(data, old(backend.View()), extra, qs) ==> Progress(data, backend.View(), extra, qs)
  {
    hide ConfigsIn, ShapeOf, KindIn, OrderIn, Get, Progress, Country, Guest.ReadGuestEnabled, SectionsByType, OnlyConfig, Guest.GuestSet, Guest.EnablingPossible, ConfigKept;
    ghost var st := backend.View();
    EnablingSame(data, st);
    CountrySame(data, st);
    if enableGuest {
      Guest.EnableGuestNetwork(backend);
      if backend.raised { return; }
      GuestIsElsewhere(st, backend.View());
      WirelessKept(data, st, backend.View(), extra, qs);
      CountryOfKept(st, backend.View());
    }
    var st1 := backend.View();
    var country := Country(st1);
    if !HasConfig(st1, "system") || country.None? { backend.Raise(); return; }
    UpdateRegulator(backend, data, country.value);
    if Progress(data, st1, extra, qs) { CountryKeeps(data, st1, backend.View(), extra, qs); }
  }

  /** The radios change nothing of what the guest step and the country depend on. */
  lemma EnablingSame(data: Store, st: Store)
    requires OnlyConfig(data, st, "wireless") && Configs(st) == Configs(data)
    ensures Guest.EnablingPossible(st) == Guest.EnablingPossible(data)
  {
    hide Get, ConfigsIn, ShapeOf, KindIn, OrderIn, ConfigKept, Fingerprint, Guest.ReadServing, Guest.ReadPool;
    Literals.Configs();
    Guest.ServerOfKept(data, st);
  }

  lemma CountrySame(data: Store, st: Store)
    requires OnlyConfig(data, st, "wireless") && Configs(st) == Configs(data)
    ensures Country(st) == Country(data) && (Country(data).Some? ==> HasConfig(data, "system"))
  {
    hide Get, ConfigsIn, ShapeOf, KindIn, OrderIn, ConfigKept, Fingerprint, Country;
    Literals.Configs();
    CountryOfKept(data, st);
    if Country(data).Some? { CountryNeedsConfig(data); }
  }

  lemma CountryOfKept(st: Store, st': Store)
    requires ConfigKept(st, st', "system")
    ensures Country(st') == Country(st)
  {
    OfKindSame(st, st', "system", Order(st, "system"), "system");
    hide Get, ConfigsIn, ShapeOf, KindIn, OrderIn, OfKind, PyText;
  }

  lemma CountryNeedsConfig(st: Store)
    requires Country(st).Some?
    ensures HasConfig(st, "system")
  {
    hide Get, ConfigsIn, ShapeOf, KindIn, PyText;
    var n := SectionsByType(st, "system", "system")[0];
    assert n in SectionsByType(st, "system", "system");
    HasNeedsConfig(st, "system", n);
  }

  lemma GuestIsElsewhere(st: Store, st': Store)
    requires Guest.GuestSet(st, st', true)
    ensures ConfigKept(st, st', "wireless") && ConfigKept(st, st', "system")
  {
    hide Get, ConfigsIn, ShapeOf, KindIn, OrderIn, Fingerprint, Guest.GuestBridge, Guest.FlagIs, Guest.FlagsAre, ConfigKept;
    Literals.Configs();
  }

  /** What the update asks: that every request is possible, that the guest network can be enabled if one of
      them asks for it, and a system section to take the country from. */
  ghost predicate AllPossible(st: Store, bands: Bands, qs: seq<Request>) {
    && HasConfig(st, "wireless")
    && (forall k | 0 <= k < |qs| :: Possible(st, bands, qs[k]))
    && ((exists k :: 0 <= k < |qs| && qs[k].radio.On? && qs[k].radio.guest.GuestOn?) ==> Guest.EnablingPossible(st))
    && Country(st).Some?
  }

  /** `update_settings`: all of the requests or none.  It ends normally exactly when all is possible; then
      every radio reads back, given one matching section per radio.  Otherwise nothing on disk changes. */
  method UpdateSettings(backend: UciBackend, bands: Bands, qs: seq<Request>) returns (ok: bool)
    modifies backend
    ensures ok == !backend.raised
    ensures ok <==> AllPossible(old(backend.committed), bands, qs)
    ensures !ok ==> backend.committed == old(backend.committed)
    ensures ok && Tidy(old(backend.committed)) && Numbered(qs) ==>
      forall k | 0 <= k < |qs| && Accepted(qs[k].radio) :: ReadsBack(backend.committed, qs[k])
  {
    hide ConfigsIn, ShapeOf, KindIn, OrderIn, Get, Progress, Tidy, Possible, ReadsBack, Accepted, Country, Guest.EnablingPossible, OnlyConfig;
    backend.Enter();
    var data := backend.View();
    if !HasConfig(data, "wireless") {
      backend.Raise();
    } else {
      ghost var extra;
      var enableGuest;
      enableGuest, extra := UpdateRadios(backend, data, bands, qs);
      if !backend.raised {
        FinishUpdate(backend, data, enableGuest, extra, qs);
        if !backend.raised && Tidy(data) && Numbered(qs) {
          forall k | 0 <= k < |qs| && Accepted(qs[k].radio) ensures ReadsBack(backend.View(), qs[k]) {
            ProgressReadsBack(data, backend.View(), extra, qs, k);
          }
        }
      }
    }
    backend.Exit();
    ok := !backend.raised;
  }
}
