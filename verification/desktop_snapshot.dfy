/**
  The desktop snapshot: twenty-four producer domains, each holding one state, assembled into the
  nested document that subscribers receive, and the incremental update that carries one domain.
 */
module DesktopSnapshot {
  import opened Wrappers

  datatype DomainId =
    | Network | Bluetooth | Audio | Media | Battery | Brightness | NightLight | Power | Osd | Lock
    | Hyprland | Notifications | Launcher | Calendar | Weather | Appearance | Resources
    | Tray | Clipboard | Recording | IdleInhibit | GameMode | Screenshot | ColorPicker

  datatype Availability = Available | Unavailable | Unsupported | PermissionDenied | Timeout | Parse | Error

  /** Contents of a typed value, or what a section shows when its producer has none. */
  datatype Payload = Payload(document: string) | EmptyContents(domain: DomainId)
  datatype DomainValue = DomainValue(domain: DomainId, payload: Payload)

  /** The producer's own diagnostic is not published; the public one is derived from the status. */
  datatype DomainState = DomainState(
    domain: DomainId, status: Availability, value: Option<DomainValue>, diagnostic: Option<string>)

  datatype PublicDiagnostic = PublicDiagnostic(status: Availability)

  type States = map<DomainId, DomainState>

  datatype ProducerAvailability = ProducerAvailability(status: Availability, diagnostic: Option<PublicDiagnostic>)
  datatype Capability = Capability(status: Availability, data: Option<Payload>, diagnostic: Option<PublicDiagnostic>)
  datatype Section = Section(availability: ProducerAvailability, contents: Payload)

  datatype SystemSnapshot = SystemSnapshot(
    network: Capability, bluetooth: Capability, audio: Capability, media: Capability, battery: Capability,
    brightness: Capability, nightLight: Capability, power: Capability, osd: Capability, lock: Capability)

  datatype UtilitySnapshot = UtilitySnapshot(
    trayItems: Capability, clipboardEntries: Capability, recording: Capability, idleInhibited: Capability,
    gameMode: Capability, screenshot: ProducerAvailability, colorPicker: ProducerAvailability)

  datatype Snapshot = Snapshot(
    system: SystemSnapshot, hyprland: Capability, notifications: Section, launcher: Section,
    calendar: Section, weather: Section, appearance: Section, resources: Section, utilities: UtilitySnapshot)

  datatype Update =
    | SystemNetwork(c: Capability) | SystemBluetooth(c: Capability) | SystemAudio(c: Capability)
    | SystemMedia(c: Capability) | SystemBattery(c: Capability) | SystemBrightness(c: Capability)
    | SystemNightLight(c: Capability) | SystemPower(c: Capability) | SystemOsd(c: Capability)
    | SystemLock(c: Capability) | CompositorHyprland(c: Capability)
    | NotificationsUpdate(s: Section) | LauncherUpdate(s: Section) | CalendarUpdate(s: Section)
    | WeatherUpdate(s: Section) | AppearanceUpdate(s: Section) | ResourcesUpdate(s: Section)
    | UtilityTray(c: Capability) | UtilityClipboard(c: Capability) | UtilityRecording(c: Capability)
    | UtilityIdleInhibited(c: Capability) | UtilityGameMode(c: Capability)
    | UtilityScreenshot(a: ProducerAvailability) | UtilityColorPicker(a: ProducerAvailability)

  // ---------------------------------------------------------------- assembling

  function AvailabilityOf(state: DomainState): ProducerAvailability {
    ProducerAvailability(state.status,
                         if state.status == Available then None else Some(PublicDiagnostic(state.status)))
  }

  /** The states are complete and stored under their own domain. */
  predicate Keyed(states: States) {
    forall d: DomainId :: d in states && states[d].domain == d
  }

  /** An available capability must carry a value of its own domain. */
  predicate CapabilityOk(state: DomainState, domain: DomainId) {
    state.status == Available ==> state.value.Some? && state.value.value.domain == domain
  }

  predicate IsCapability(domain: DomainId) {
    match domain
    case Notifications => false
    case Launcher => false
    case Calendar => false
    case Weather => false
    case Appearance => false
    case Resources => false
    case Screenshot => false
    case ColorPicker => false
    case _ => true
  }

  predicate Assemblable(states: States) {
    Keyed(states) && forall d: DomainId :: IsCapability(d) ==> CapabilityOk(states[d], d)
  }

  function CapabilityOf(state: DomainState, domain: DomainId): Capability {
    if state.status == Available then
      Capability(Available,
                 if state.value.Some? && state.value.value.domain == domain
                 then Some(state.value.value.payload) else None,
                 None)
    else Capability(state.status, None, Some(PublicDiagnostic(state.status)))
  }

  function SectionOf(state: DomainState, domain: DomainId): Section {
    Section(AvailabilityOf(state),
            if state.value.Some? && state.value.value.domain == domain then state.value.value.payload
            else EmptyContents(domain))
  }

  function AssembleSystem(states: States): SystemSnapshot
    requires Keyed(states)
  {
    SystemSnapshot(
      CapabilityOf(states[Network], Network), CapabilityOf(states[Bluetooth], Bluetooth),
      CapabilityOf(states[Audio], Audio), CapabilityOf(states[Media], Media),
      CapabilityOf(states[Battery], Battery), CapabilityOf(states[Brightness], Brightness),
      CapabilityOf(states[NightLight], NightLight), CapabilityOf(states[Power], Power),
      CapabilityOf(states[Osd], Osd), CapabilityOf(states[Lock], Lock))
  }

  function AssembleUtilities(states: States): UtilitySnapshot
    requires Keyed(states)
  {
    UtilitySnapshot(
      CapabilityOf(states[Tray], Tray), CapabilityOf(states[Clipboard], Clipboard),
      CapabilityOf(states[Recording], Recording), CapabilityOf(states[IdleInhibit], IdleInhibit),
      CapabilityOf(states[GameMode], GameMode), AvailabilityOf(states[Screenshot]),
      AvailabilityOf(states[ColorPicker]))
  }

  function Assemble(states: States): Snapshot
    requires Keyed(states)
  {
    Snapshot(
      AssembleSystem(states),
      CapabilityOf(states[Hyprland], Hyprland),
      SectionOf(states[Notifications], Notifications), SectionOf(states[Launcher], Launcher),
      SectionOf(states[Calendar], Calendar), SectionOf(states[Weather], Weather),
      SectionOf(states[Appearance], Appearance), SectionOf(states[Resources], Resources),
      AssembleUtilities(states))
  }

  // ---------------------------------------------------------------- incremental updates

  /** The part of a snapshot that belongs to one domain. */
  function DomainUpdate(domain: DomainId, s: Snapshot): Update {
    match domain
    case Network => SystemNetwork(s.system.network)
    case Bluetooth => SystemBluetooth(s.system.bluetooth)
    case Audio => SystemAudio(s.system.audio)
    case Media => SystemMedia(s.system.media)
    case Battery => SystemBattery(s.system.battery)
    case Brightness => SystemBrightness(s.system.brightness)
    case NightLight => SystemNightLight(s.system.nightLight)
    case Power => SystemPower(s.system.power)
    case Osd => SystemOsd(s.system.osd)
    case Lock => SystemLock(s.system.lock)
    case Hyprland => CompositorHyprland(s.hyprland)
    case Notifications => NotificationsUpdate(s.notifications)
    case Launcher => LauncherUpdate(s.launcher)
    case Calendar => CalendarUpdate(s.calendar)
    case Weather => WeatherUpdate(s.weather)
    case Appearance => AppearanceUpdate(s.appearance)
    case Resources => ResourcesUpdate(s.resources)
    case Tray => UtilityTray(s.utilities.trayItems)
    case Clipboard => UtilityClipboard(s.utilities.clipboardEntries)
    case Recording => UtilityRecording(s.utilities.recording)
    case IdleInhibit => UtilityIdleInhibited(s.utilities.idleInhibited)
    case GameMode => UtilityGameMode(s.utilities.gameMode)
    case Screenshot => UtilityScreenshot(s.utilities.screenshot)
    case ColorPicker => UtilityColorPicker(s.utilities.colorPicker)
  }

  /** A part of the snapshot, whichever form its domain has. */
  datatype Part = OfCapability(c: Capability) | OfSection(s: Section) | OfAvailability(a: ProducerAvailability)

  /** Where a reader of the snapshot looks for a domain. */
  function PartIn(s: Snapshot, domain: DomainId): Part {
    match domain
    case Network => OfCapability(s.system.network)
    case Bluetooth => OfCapability(s.system.bluetooth)
    case Audio => OfCapability(s.system.audio)
    case Media => OfCapability(s.system.media)
    case Battery => OfCapability(s.system.battery)
    case Brightness => OfCapability(s.system.brightness)
    case NightLight => OfCapability(s.system.nightLight)
    case Power => OfCapability(s.system.power)
    case Osd => OfCapability(s.system.osd)
    case Lock => OfCapability(s.system.lock)
    case Hyprland => OfCapability(s.hyprland)
    case Notifications => OfSection(s.notifications)
    case Launcher => OfSection(s.launcher)
    case Calendar => OfSection(s.calendar)
    case Weather => OfSection(s.weather)
    case Appearance => OfSection(s.appearance)
    case Resources => OfSection(s.resources)
    case Tray => OfCapability(s.utilities.trayItems)
    case Clipboard => OfCapability(s.utilities.clipboardEntries)
    case Recording => OfCapability(s.utilities.recording)
    case IdleInhibit => OfCapability(s.utilities.idleInhibited)
    case GameMode => OfCapability(s.utilities.gameMode)
    case Screenshot => OfAvailability(s.utilities.screenshot)
    case ColorPicker => OfAvailability(s.utilities.colorPicker)
  }

  /** The availability shown for a state, with the public diagnostic unless it is available. */
  predicate ShowsAvailability(state: DomainState, a: ProducerAvailability) {
    a.status == state.status && (a.diagnostic.None? <==> state.status == Available)
    && (a.diagnostic.Some? ==> a.diagnostic.value.status == state.status)
  }

  /** The part shows the state: its availability and, where it has any, exactly its contents. */
  predicate Shows(state: DomainState, part: Part) {
    match part
    case OfAvailability(a) => ShowsAvailability(state, a)
    case OfSection(s) =>
      && ShowsAvailability(state, s.availability)
      && (if state.value.Some? && state.value.value.domain == state.domain
          then s.contents == state.value.value.payload else s.contents == EmptyContents(state.domain))
    case OfCapability(c) =>
      && ShowsAvailability(state, ProducerAvailability(c.status, c.diagnostic))
      && (state.status != Available ==> c.data == None)
      && (state.status == Available && state.value.Some? && state.value.value.domain == state.domain ==>
            c.data == Some(state.value.value.payload))
  }

  /** Every part of the snapshot shows the state of its own producer. */
  lemma SnapshotShowsStates(states: States, domain: DomainId)
    requires Keyed(states)
    ensures Shows(states[domain], PartIn(Assemble(states), domain))
  {
    CapabilityShows(states[domain]);
    PartOfItsState(states, domain);
  }

  lemma PartOfItsState(states: States, d: DomainId)
    requires Keyed(states)
    ensures PartIn(Assemble(states), d) in
            {OfCapability(CapabilityOf(states[d], d)), OfSection(SectionOf(states[d], d)),
             OfAvailability(AvailabilityOf(states[d]))}
  {
  }

  lemma CapabilityShows(state: DomainState)
    ensures Shows(state, OfCapability(CapabilityOf(state, state.domain)))
    ensures Shows(state, OfSection(SectionOf(state, state.domain)))
    ensures Shows(state, OfAvailability(AvailabilityOf(state)))
  {
  }

  /** What a subscriber does with an update: replace the named part. */
  function ApplyUpdate(s: Snapshot, u: Update): Snapshot {
    match u
    case SystemNetwork(c) => s.(system := s.system.(network := c))
    case SystemBluetooth(c) => s.(system := s.system.(bluetooth := c))
    case SystemAudio(c) => s.(system := s.system.(audio := c))
    case SystemMedia(c) => s.(system := s.system.(media := c))
    case SystemBattery(c) => s.(system := s.system.(battery := c))
    case SystemBrightness(c) => s.(system := s.system.(brightness := c))
    case SystemNightLight(c) => s.(system := s.system.(nightLight := c))
    case SystemPower(c) => s.(system := s.system.(power := c))
    case SystemOsd(c) => s.(system := s.system.(osd := c))
    case SystemLock(c) => s.(system := s.system.(lock := c))
    case CompositorHyprland(c) => s.(hyprland := c)
    case NotificationsUpdate(x) => s.(notifications := x)
    case LauncherUpdate(x) => s.(launcher := x)
    case CalendarUpdate(x) => s.(calendar := x)
    case WeatherUpdate(x) => s.(weather := x)
    case AppearanceUpdate(x) => s.(appearance := x)
    case ResourcesUpdate(x) => s.(resources := x)
    case UtilityTray(c) => s.(utilities := s.utilities.(trayItems := c))
    case UtilityClipboard(c) => s.(utilities := s.utilities.(clipboardEntries := c))
    case UtilityRecording(c) => s.(utilities := s.utilities.(recording := c))
    case UtilityIdleInhibited(c) => s.(utilities := s.utilities.(idleInhibited := c))
    case UtilityGameMode(c) => s.(utilities := s.utilities.(gameMode := c))
    case UtilityScreenshot(a) => s.(utilities := s.utilities.(screenshot := a))
    case UtilityColorPicker(a) => s.(utilities := s.utilities.(colorPicker := a))
  }

  ghost predicate DiffersAtMostAt(a: States, b: States, domain: DomainId) {
    Keyed(a) && Keyed(b) && forall d: DomainId :: d != domain ==> a[d] == b[d]
  }

  /** The parts agree except possibly the one that belongs to the domain. */
  predicate SystemAgrees(x: SystemSnapshot, y: SystemSnapshot, d: DomainId) {
    && (d.Network? || x.network == y.network) && (d.Bluetooth? || x.bluetooth == y.bluetooth)
    && (d.Audio? || x.audio == y.audio) && (d.Media? || x.media == y.media)
    && (d.Battery? || x.battery == y.battery) && (d.Brightness? || x.brightness == y.brightness)
    && (d.NightLight? || x.nightLight == y.nightLight) && (d.Power? || x.power == y.power)
    && (d.Osd? || x.osd == y.osd) && (d.Lock? || x.lock == y.lock)
  }

  predicate UtilitiesAgree(x: UtilitySnapshot, y: UtilitySnapshot, d: DomainId) {
    && (d.Tray? || x.trayItems == y.trayItems) && (d.Clipboard? || x.clipboardEntries == y.clipboardEntries)
    && (d.Recording? || x.recording == y.recording) && (d.IdleInhibit? || x.idleInhibited == y.idleInhibited)
    && (d.GameMode? || x.gameMode == y.gameMode) && (d.Screenshot? || x.screenshot == y.screenshot)
    && (d.ColorPicker? || x.colorPicker == y.colorPicker)
  }

  predicate Agrees(x: Snapshot, y: Snapshot, d: DomainId) {
    SystemAgrees(x.system, y.system, d) && UtilitiesAgree(x.utilities, y.utilities, d) && SectionsAgree(x, y, d)
  }

  predicate SectionsAgree(x: Snapshot, y: Snapshot, d: DomainId) {
    && (d.Hyprland? || x.hyprland == y.hyprland) && (d.Notifications? || x.notifications == y.notifications)
    && (d.Launcher? || x.launcher == y.launcher) && (d.Calendar? || x.calendar == y.calendar)
    && (d.Weather? || x.weather == y.weather) && (d.Appearance? || x.appearance == y.appearance)
    && (d.Resources? || x.resources == y.resources)
  }

  lemma AssemblingIsDomainwise(a: States, b: States, domain: DomainId)
    requires DiffersAtMostAt(a, b, domain)
    ensures Agrees(Assemble(a), Assemble(b), domain)
  {
    SystemIsDomainwise(a, b, domain);
    UtilitiesAreDomainwise(a, b, domain);
    SectionsAreDomainwise(a, b, domain);
  }

  lemma SystemIsDomainwise(a: States, b: States, domain: DomainId)
    requires DiffersAtMostAt(a, b, domain)
    ensures SystemAgrees(AssembleSystem(a), AssembleSystem(b), domain)
  {
  }

  lemma UtilitiesAreDomainwise(a: States, b: States, domain: DomainId)
    requires DiffersAtMostAt(a, b, domain)
    ensures UtilitiesAgree(AssembleUtilities(a), AssembleUtilities(b), domain)
  {
  }

  lemma SectionsAreDomainwise(a: States, b: States, domain: DomainId)
    requires DiffersAtMostAt(a, b, domain)
    ensures SectionsAgree(Assemble(a), Assemble(b), domain)
  {
  }

  lemma UpdatingIsDomainwise(x: Snapshot, y: Snapshot, domain: DomainId)
    requires Agrees(x, y, domain)
    ensures ApplyUpdate(x, DomainUpdate(domain, y)) == y
  {
  }

  /**
    One update is enough: replacing one domain's state changes only the part the update carries, so
    applying it to the old snapshot gives the new one.
   */
  lemma OneUpdateSuffices(states: States, domain: DomainId, state: DomainState)
    requires Keyed(states) && state.domain == domain
    ensures Keyed(states[domain := state])
    ensures var staged := states[domain := state];
            ApplyUpdate(Assemble(states), DomainUpdate(domain, Assemble(staged))) == Assemble(staged)
  {
    var staged := states[domain := state];
    AssemblingIsDomainwise(states, staged, domain);
    UpdatingIsDomainwise(Assemble(states), Assemble(staged), domain);
  }
}
