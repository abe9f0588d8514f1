/** The widget's configuration: the built-in defaults, the caller's options
    and the merge that combines them when an instance is constructed. */
module Settings {
  import opened Wrappers

  /** What the renderer is handed: the message line and an optional
      timestamp line (omitted from the markup when absent). */
  datatype Payload = Payload(message: string, timestamp: Option<string>)

  /** The configuration an instance keeps for its whole life. Durations are
      in milliseconds, `minTimeBetween` in whole hours. `position`, `theme`,
      `showIcon`, `iconType`, `animation` and `closeButton` only shape the
      markup; they are carried so that the merge covers every option. */
  datatype Config = Config(
    position: string,
    autoClose: bool,
    autoCloseTimeout: int,
    initialDelay: int,
    dataSource: string,
    apiUrl: Option<string>,
    localData: seq<Payload>,
    saveToStorage: bool,
    minTimeBetween: int,
    theme: string,
    showIcon: bool,
    iconType: string,
    animation: string,
    animationDuration: int,
    closeButton: bool,
    pauseOnHover: bool,
    maxNotifications: int,
    messageFormat: string)

  const DefaultMessageFormat: string := "{count} people {action} {timeframe}!"

  /** The built-in defaults, field by field. */
  const Defaults: Config := Config(
    "bottom-right", true, 8000, 10000, "local", None, [], true, 9,
    "default", true, "checkmark", "slide", 300, true, false, 1,
    DefaultMessageFormat)

  /** The options object passed to the constructor: `None` for a key the
      caller did not supply. */
  datatype Options = Options(
    position: Option<string>,
    autoClose: Option<bool>,
    autoCloseTimeout: Option<int>,
    initialDelay: Option<int>,
    dataSource: Option<string>,
    apiUrl: Option<Option<string>>,
    localData: Option<seq<Payload>>,
    saveToStorage: Option<bool>,
    minTimeBetween: Option<int>,
    theme: Option<string>,
    showIcon: Option<bool>,
    iconType: Option<string>,
    animation: Option<string>,
    animationDuration: Option<int>,
    closeButton: Option<bool>,
    pauseOnHover: Option<bool>,
    maxNotifications: Option<int>,
    messageFormat: Option<string>)

  /** The empty options object `{}`. */
  const NoOptions: Options := Options(
    None, None, None, None, None, None, None, None, None,
    None, None, None, None, None, None, None, None, None)

  /** An options object that supplies every key, with the values of `c`. */
  function Supplying(c: Config): Options {
    Options(
      Some(c.position), Some(c.autoClose), Some(c.autoCloseTimeout),
      Some(c.initialDelay), Some(c.dataSource), Some(c.apiUrl),
      Some(c.localData), Some(c.saveToStorage), Some(c.minTimeBetween),
      Some(c.theme), Some(c.showIcon), Some(c.iconType), Some(c.animation),
      Some(c.animationDuration), Some(c.closeButton), Some(c.pauseOnHover),
      Some(c.maxNotifications), Some(c.messageFormat))
  }

  /** One key of the spread `{ ...defaults, ...options }`: a supplied value
      wins over the default. */
  function Override<T>(supplied: Option<T>, default: T): T {
    match supplied
    case Some(v) => v
    case None => default
  }

  /** The configuration built by the constructor: each supplied key wins and
      each missing key keeps its default. With no options it is the
      defaults; when every key is supplied no default leaks through. */
  function Merge(o: Options): (c: Config)
    ensures o.position.Some? ==> c.position == o.position.value
    ensures o.position.None? ==> c.position == Defaults.position
    ensures o.autoClose.Some? ==> c.autoClose == o.autoClose.value
    ensures o.autoClose.None? ==> c.autoClose == Defaults.autoClose
    ensures o.autoCloseTimeout.Some? ==> c.autoCloseTimeout == o.autoCloseTimeout.value
    ensures o.autoCloseTimeout.None? ==> c.autoCloseTimeout == Defaults.autoCloseTimeout
    ensures o.initialDelay.Some? ==> c.initialDelay == o.initialDelay.value
    ensures o.initialDelay.None? ==> c.initialDelay == Defaults.initialDelay
    ensures o.dataSource.Some? ==> c.dataSource == o.dataSource.value
    ensures o.dataSource.None? ==> c.dataSource == Defaults.dataSource
    ensures o.apiUrl.Some? ==> c.apiUrl == o.apiUrl.value
    ensures o.apiUrl.None? ==> c.apiUrl == Defaults.apiUrl
    ensures o.localData.Some? ==> c.localData == o.localData.value
    ensures o.localData.None? ==> c.localData == Defaults.localData
    ensures o.saveToStorage.Some? ==> c.saveToStorage == o.saveToStorage.value
    ensures o.saveToStorage.None? ==> c.saveToStorage == Defaults.saveToStorage
    ensures o.minTimeBetween.Some? ==> c.minTimeBetween == o.minTimeBetween.value
    ensures o.minTimeBetween.None? ==> c.minTimeBetween == Defaults.minTimeBetween
    ensures o.theme.Some? ==> c.theme == o.theme.value
    ensures o.theme.None? ==> c.theme == Defaults.theme
    ensures o.showIcon.Some? ==> c.showIcon == o.showIcon.value
    ensures o.showIcon.None? ==> c.showIcon == Defaults.showIcon
    ensures o.iconType.Some? ==> c.iconType == o.iconType.value
    ensures o.iconType.None? ==> c.iconType == Defaults.iconType
    ensures o.animation.Some? ==> c.animation == o.animation.value
    ensures o.animation.None? ==> c.animation == Defaults.animation
    ensures o.animationDuration.Some? ==> c.animationDuration == o.animationDuration.value
    ensures o.animationDuration.None? ==> c.animationDuration == Defaults.animationDuration
    ensures o.closeButton.Some? ==> c.closeButton == o.closeButton.value
    ensures o.closeButton.None? ==> c.closeButton == Defaults.closeButton
    ensures o.pauseOnHover.Some? ==> c.pauseOnHover == o.pauseOnHover.value
    ensures o.pauseOnHover.None? ==> c.pauseOnHover == Defaults.pauseOnHover
    ensures o.maxNotifications.Some? ==> c.maxNotifications == o.maxNotifications.value
    ensures o.maxNotifications.None? ==> c.maxNotifications == Defaults.maxNotifications
    ensures o.messageFormat.Some? ==> c.messageFormat == o.messageFormat.value
    ensures o.messageFormat.None? ==> c.messageFormat == Defaults.messageFormat
    ensures o == NoOptions ==> c == Defaults
    ensures forall x :: o == Supplying(x) ==> c == x
  {
    Config(
      Override(o.position, Defaults.position),
      Override(o.autoClose, Defaults.autoClose),
      Override(o.autoCloseTimeout, Defaults.autoCloseTimeout),
      Override(o.initialDelay, Defaults.initialDelay),
      Override(o.dataSource, Defaults.dataSource),
      Override(o.apiUrl, Defaults.apiUrl),
      Override(o.localData, Defaults.localData),
      Override(o.saveToStorage, Defaults.saveToStorage),
      Override(o.minTimeBetween, Defaults.minTimeBetween),
      Override(o.theme, Defaults.theme),
      Override(o.showIcon, Defaults.showIcon),
      Override(o.iconType, Defaults.iconType),
      Override(o.animation, Defaults.animation),
      Override(o.animationDuration, Defaults.animationDuration),
      Override(o.closeButton, Defaults.closeButton),
      Override(o.pauseOnHover, Defaults.pauseOnHover),
      Override(o.maxNotifications, Defaults.maxNotifications),
      Override(o.messageFormat, Defaults.messageFormat))
  }
}
