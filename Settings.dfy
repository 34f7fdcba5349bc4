/**
 * `OllamaSettingsService`: the persisted connection settings and the base
 * URL built from them. The XML persistence is a field-by-field copy.
 */
module Settings {
  import opened Options
  import opened Numbers

  const DEFAULT_HOST: string := "localhost"
  const DEFAULT_PORT: Int32 := 11434

  /** `String.format("http://%s:%d", host, port)`. */
  function BaseUrl(host: string, port: int): string {
    "http://" + host + ":" + Decimal(port)
  }

  /** `String.lastIndexOf(char)`. */
  function LastIndexOf(s: string, c: char): (r: Option<nat>)
    ensures r.None? <==> forall j :: 0 <= j < |s| ==> s[j] != c
    ensures r.Some? ==> r.value < |s| && s[r.value] == c
    ensures r.Some? ==> forall j :: r.value < j < |s| ==> s[j] != c
    decreases |s|
  {
    if |s| == 0 then None
    else if s[|s| - 1] == c then Some(|s| - 1)
    else
      var r := LastIndexOf(s[..|s| - 1], c);
      assert forall j :: 0 <= j < |s| - 1 ==> s[..|s| - 1][j] == s[j];
      r
  }

  /**
   * Reads a base URL back into its host and port: the text after "http://"
   * up to the last colon, and the number after it.
   */
  function SplitBaseUrl(url: string): Option<(string, Long)> {
    if |url| < 7 || url[..7] != "http://" then None
    else
      var rest := url[7..];
      match LastIndexOf(rest, ':')
      case None => None
      case Some(i) =>
        match ParseLong(rest[i + 1..])
        case None => None
        case Some(port) => Some((rest[..i], port))
  }

  /** A colon followed by colon-free text is the last colon. */
  lemma {:induction false} LastColonBeforeTail(head: string, tail: string)
    requires ':' !in tail
    ensures LastIndexOf(head + ":" + tail, ':') == Some(|head|)
    decreases |tail|
  {
    var s := head + ":" + tail;
    if |tail| == 0 {
      assert s[|s| - 1] == ':';
    } else {
      var shorter := tail[..|tail| - 1];
      assert s[|s| - 1] == tail[|tail| - 1];
      assert s[..|s| - 1] == head + ":" + shorter;
      LastColonBeforeTail(head, shorter);
    }
  }

  /** The host and port a base URL was built from can be read back from it. */
  lemma BaseUrlRoundTrip(host: string, port: Int32)
    ensures SplitBaseUrl(BaseUrl(host, port)) == Some((host, port))
  {
    var digits := Decimal(port);
    var url := BaseUrl(host, port);
    assert url[..7] == "http://";
    var rest := url[7..];
    assert rest == host + ":" + digits;
    DecimalHasNoColon(port);
    LastColonBeforeTail(host, digits);
    assert rest[|host| + 1..] == digits;
    assert rest[..|host|] == host;
    ParseDecimal(port);
  }

  /** The default settings address "http://localhost:11434". */
  lemma DefaultBaseUrl()
    ensures BaseUrl(DEFAULT_HOST, DEFAULT_PORT) == "http://localhost:11434"
  {
    assert Digits(1) == "1";
    assert Digits(11) == "11";
    assert Digits(114) == "114";
    assert Digits(1143) == "1143";
    assert Digits(11434) == "11434";
  }

  class SettingsService {
    var host: string
    var port: Int32
    var selectedModel: string
    var autoConnect: bool

    /** The field initialisers. */
    constructor ()
      ensures host == "localhost" && port == 11434 && selectedModel == "" && !autoConnect
    {
      host := DEFAULT_HOST;
      port := DEFAULT_PORT;
      selectedModel := "";
      autoConnect := false;
    }

    /**
     * `getBaseUrl`: an "http://" URL from which host and port read back;
     * it depends on those two fields alone.
     */
    function GetBaseUrl(): (url: string)
      reads this
      ensures |url| >= 7 && url[..7] == "http://"
      ensures SplitBaseUrl(url) == Some((host, port))
    {
      BaseUrlRoundTrip(host, port);
      BaseUrl(host, port)
    }

    /** `getState`: the service itself is its persisted state. */
    method GetState() returns (state: SettingsService)
      ensures state == this
    {
      state := this;
    }

    /** `loadState`: every field takes the loaded state's value. */
    method LoadState(state: SettingsService)
      modifies this
      ensures host == old(state.host) && port == old(state.port)
      ensures selectedModel == old(state.selectedModel) && autoConnect == old(state.autoConnect)
    {
      var h, p, m, a := state.host, state.port, state.selectedModel, state.autoConnect;
      host, port, selectedModel, autoConnect := h, p, m, a;
    }
  }
}
