/**
 * `OllamaSettingsPanel`: the editable copy of the connection settings. The
 * widgets are fields (the host text, the port spinner's value, the
 * auto-connect check box, the status label); the dialogs shown and the
 * connection tests started are recorded in order.
 */
module SettingsPanel {
  import opened Numbers
  import opened Settings

  const NOT_CONNECTED := "Not connected"
  const TESTING := "Testing..."
  const EMPTY_HOST_WARNING := "Please enter a host"
  const PORT_MIN := 1
  const PORT_MAX := 65535

  class SettingsPanel {
    /** The application-wide settings instance the panel edits. */
    const settings: SettingsService
    var hostText: string
    var portValue: Int32
    var autoConnectSelected: bool
    var statusText: string
    /** Warning dialogs shown, oldest first. */
    var warnings: seq<string>
    /** Base URLs of the connection tests started, oldest first. */
    var probes: seq<string>

    /** `isModified`: some edited field differs from the stored settings. */
    predicate IsModified()
      reads this, settings
      ensures IsModified() <==> (hostText, portValue, autoConnectSelected) != (settings.host, settings.port, settings.autoConnect)
    {
      hostText != settings.host || portValue != settings.port || autoConnectSelected != settings.autoConnect
    }

    predicate PortInRange()
      reads this
    {
      PORT_MIN <= portValue <= PORT_MAX
    }

    /** `createUI` (spinner at 11434, label "Not connected"), then `reset`. */
    constructor (settings: SettingsService)
      ensures this.settings == settings
      ensures hostText == settings.host && portValue == settings.port && autoConnectSelected == settings.autoConnect
      ensures statusText == NOT_CONNECTED && warnings == [] && probes == []
      ensures !IsModified()
    {
      this.settings := settings;
      hostText := "";
      portValue := 11434;
      autoConnectSelected := false;
      statusText := NOT_CONNECTED;
      warnings := [];
      probes := [];
      new;
      Reset();
    }

    /**
     * The user sets the port spinner: its model only accepts values from
     * 1 to 65535, so anything else leaves it unchanged.
     */
    method EditPort(value: int)
      modifies this`portValue
      ensures PORT_MIN <= value <= PORT_MAX ==> portValue == value
      ensures !(PORT_MIN <= value <= PORT_MAX) ==> portValue == old(portValue)
      ensures old(PortInRange()) ==> PortInRange()
    {
      if PORT_MIN <= value <= PORT_MAX {
        portValue := value;
      }
    }

    /** `apply`: host, port and auto-connect are stored; the selected model is kept. */
    method Apply()
      modifies settings
      ensures settings.host == hostText && settings.port == portValue && settings.autoConnect == autoConnectSelected
      ensures settings.selectedModel == old(settings.selectedModel)
      ensures !IsModified()
    {
      settings.host := hostText;
      settings.port := portValue;
      settings.autoConnect := autoConnectSelected;
    }

    /** `reset`: the fields show the stored settings and the label "Not connected". */
    method Reset()
      modifies this`hostText, this`portValue, this`autoConnectSelected, this`statusText
      ensures hostText == settings.host && portValue == settings.port && autoConnectSelected == settings.autoConnect
      ensures statusText == NOT_CONNECTED
      ensures !IsModified()
      ensures PORT_MIN <= settings.port <= PORT_MAX ==> PortInRange()
    {
      hostText := settings.host;
      portValue := settings.port;
      autoConnectSelected := settings.autoConnect;
      statusText := NOT_CONNECTED;
    }

    /**
     * `testConnection`: an empty host only shows the warning; otherwise the
     * label reads "Testing..." and a test of "http://host:port" starts.
     */
    method TestConnection()
      modifies this`statusText, this`warnings, this`probes
      ensures hostText == "" ==> warnings == old(warnings) + [EMPTY_HOST_WARNING]
                                 && statusText == old(statusText) && probes == old(probes)
      ensures hostText != "" ==> statusText == TESTING && warnings == old(warnings)
                                 && probes == old(probes) + [BaseUrl(hostText, portValue)]
    {
      if hostText == "" {
        warnings := warnings + [EMPTY_HOST_WARNING];
        return;
      }
      statusText := TESTING;
      probes := probes + [BaseUrl(hostText, portValue)];
    }
  }
}
