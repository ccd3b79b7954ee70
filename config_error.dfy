/** The configuration errors of basalt/src/config.rs and their messages. The wrapped I/O,
    home-directory and TOML errors are transparent: their message is the wrapped one, kept here as
    text. */
module ConfigErrors {
  datatype ConfigError =
    | Io(ioMessage: string)
    | HomeDir(homeMessage: string)
    | Toml(tomlMessage: string)
    | InvalidKeybinding(binding: string)
    | UnknownKeyCode(code: string)
    | UnknownKeyModifiers(modifiers: string)
    | UserConfigNotFound(reason: string)
  {
    /** The `Display` text each variant's `#[error]` attribute declares. */
    function Message(): (r: string)
      ensures InvalidKeybinding? ==> r == "Invalid keybinding: " + binding
      ensures UnknownKeyCode? ==> r == "Unknown code: " + code
      ensures UnknownKeyModifiers? ==> r == "Unknown modifiers: " + modifiers
      ensures UserConfigNotFound? ==> r == "User config not found: " + reason
      ensures Io? ==> r == ioMessage
    {
      match this
      case Io(m) => m
      case HomeDir(m) => m
      case Toml(m) => m
      case InvalidKeybinding(m) => "Invalid keybinding: " + m
      case UnknownKeyCode(c) => "Unknown code: " + c
      case UnknownKeyModifiers(m) => "Unknown modifiers: " + m
      case UserConfigNotFound(m) => "User config not found: " + m
    }
  }

  /** `de::Error::custom` for `ConfigError`: any message becomes an invalid key binding. */
  function Custom(msg: string): (r: ConfigError)
    ensures r.InvalidKeybinding? && r.binding == msg
  {
    InvalidKeybinding(msg)
  }
}
