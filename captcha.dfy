/** The captcha validator used when no provider is configured. */
module NullCaptcha {
  import opened Php

  /** Every response passes, whatever the remote address. */
  function Validate(response: string, remoteIp: Option<string>): (ok: bool)
    ensures ok
  {
    true
  }

  function IsEnabled(): (enabled: bool)
    ensures !enabled
  {
    false
  }

  function GetProvider(): (name: string)
    ensures name == "none"
  {
    "none"
  }

  lemma ValidateIgnoresRemoteIp(response: string, ip1: Option<string>, ip2: Option<string>)
    ensures Validate(response, ip1) == Validate(response, ip2)
  {
  }
}
