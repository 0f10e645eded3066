/**
 * Account connection and the activity-result callback. The vendor's sign-in state is
 * the plugin's environment: `account` says whether `GoogleSignIn.getLastSignedInAccount`
 * finds an account, and `permitted` whether that account holds the plugin's read scopes.
 * What the plugin does is recorded as a sequence of effects.
 */
module Connection {
  import opened Wrappers

  const PermissionsRequestCode: int := 19849
  const SignInRequestCode: int := 1337

  /** A Capacitor `PluginCall`, by identity. */
  type CallId = nat

  datatype Effect =
    | LaunchSignIn(call: CallId, requestCode: int)   // startActivityForResult with the sign-in intent
    | RequestPermissions(requestCode: int)           // GoogleSignIn.requestPermissions
    | Resolve(call: CallId)                          // call.resolve()
    | NullCallDereference                            // savedCall.resolve() on a null saved call

  /** What `handleOnActivityResult` does for a request code. */
  datatype Completion = ResolveSaved | AskPermissions | Ignore

  /** The two-entry completion table: permissions code resolves; sign-in code asks for missing scopes or resolves. */
  function Dispatch(requestCode: int, hasPermissions: bool): (c: Completion)
    ensures c == Ignore <==> requestCode != PermissionsRequestCode && requestCode != SignInRequestCode
    ensures c == AskPermissions <==> requestCode == SignInRequestCode && !hasPermissions
    ensures c == ResolveSaved <==> requestCode == PermissionsRequestCode || (requestCode == SignInRequestCode && hasPermissions)
  {
    if requestCode == PermissionsRequestCode then ResolveSaved
    else if requestCode == SignInRequestCode then (if !hasPermissions then AskPermissions else ResolveSaved)
    else Ignore
  }

  /** The effects of a completion, given the call Capacitor has saved for the plugin. */
  function Reaction(c: Completion, saved: Option<CallId>): (effects: seq<Effect>)
    ensures c == Ignore <==> effects == []
    ensures c == ResolveSaved && saved.Some? ==> effects == [Resolve(saved.value)]
    ensures c == ResolveSaved && saved.None? ==> effects == [NullCallDereference]
    ensures c == AskPermissions ==> effects == [RequestPermissions(PermissionsRequestCode)]
  {
    match c
    case Ignore => []
    case AskPermissions => [RequestPermissions(PermissionsRequestCode)]
    case ResolveSaved => if saved.Some? then [Resolve(saved.value)] else [NullCallDereference]
  }

  class GoogleFitPlugin {
    var account: bool
    var permitted: bool
    var savedCall: Option<CallId>    // what Capacitor's getSavedCall() returns; this plugin never sets it
    var effects: seq<Effect>

    constructor (account: bool, permitted: bool, savedCall: Option<CallId>)
      ensures this.account == account && this.permitted == permitted && this.savedCall == savedCall
      ensures effects == []
    {
      this.account := account;
      this.permitted := permitted;
      this.savedCall := savedCall;
      effects := [];
    }

    /** `GoogleSignIn.hasPermissions(getAccount(), ...)`: false for a missing account. */
    predicate HasPermissions()
      reads this
    {
      account && permitted
    }

    /** `isAllowed`: false without an account, false when scopes are missing, true only with both. */
    method IsAllowed() returns (allowed: bool)
      ensures !account ==> !allowed
      ensures account && !permitted ==> !allowed
      ensures allowed <==> account && permitted
    {
      allowed := account && permitted;
    }

    /**
     * `connectToGoogleFit`: with no account, launch the sign-in flow; otherwise request the
     * read scopes directly. Either way the call is resolved at once, before any flow completes.
     */
    method ConnectToGoogleFit(call: CallId)
      modifies this`effects
      ensures !account ==> effects == old(effects) + [LaunchSignIn(call, SignInRequestCode), Resolve(call)]
      ensures account ==> effects == old(effects) + [RequestPermissions(PermissionsRequestCode), Resolve(call)]
    {
      if !account {
        effects := effects + [LaunchSignIn(call, SignInRequestCode)];
      } else {
        effects := effects + [RequestPermissions(PermissionsRequestCode)];
      }
      effects := effects + [Resolve(call)];
    }

    /** `handleOnActivityResult`: dispatch on the request code; other codes leave everything as it was. */
    method HandleOnActivityResult(requestCode: int)
      modifies this`effects
      ensures effects == old(effects) + Reaction(Dispatch(requestCode, HasPermissions()), savedCall)
    {
      if requestCode == PermissionsRequestCode {
        effects := effects + (if savedCall.Some? then [Resolve(savedCall.value)] else [NullCallDereference]);
      } else if requestCode == SignInRequestCode {
        if !(account && permitted) {
          effects := effects + [RequestPermissions(PermissionsRequestCode)];
        } else {
          effects := effects + (if savedCall.Some? then [Resolve(savedCall.value)] else [NullCallDereference]);
        }
      }
    }
  }

  /** Connecting without an account resolves the call immediately, before the sign-in result arrives. */
  method ConnectResolvesBeforeSignIn(call: CallId) returns (effects: seq<Effect>)
    ensures effects == [LaunchSignIn(call, SignInRequestCode), Resolve(call)]
  {
    var plugin := new GoogleFitPlugin(false, false, None);
    plugin.ConnectToGoogleFit(call);
    effects := plugin.effects;
  }

  /**
   * Connecting with an account but without scopes asks for them directly, with no sign-in;
   * when the permission result then arrives with no saved call, the callback dereferences null.
   */
  method ConnectWithAccountThenPermissionResult(call: CallId) returns (effects: seq<Effect>)
    ensures effects == [RequestPermissions(PermissionsRequestCode), Resolve(call), NullCallDereference]
  {
    var plugin := new GoogleFitPlugin(true, false, None);
    plugin.ConnectToGoogleFit(call);
    plugin.HandleOnActivityResult(PermissionsRequestCode);
    effects := plugin.effects;
  }

  /** A sign-in result for an account still lacking scopes chains into the permission request. */
  method SignInResultChainsToPermissions(saved: CallId) returns (effects: seq<Effect>)
    ensures effects == [RequestPermissions(PermissionsRequestCode)]
  {
    var plugin := new GoogleFitPlugin(true, false, Some(saved));
    plugin.HandleOnActivityResult(SignInRequestCode);
    effects := plugin.effects;
  }
}
