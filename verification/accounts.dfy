/** The account table of main.py and the operations on it: `add_account` (an upsert
    after a remote login), `get_account_client` (lookup of an active account followed
    by a login), the choice of login call for a two-factor code, and the conversation
    step that receives the code. The remote login and the cipher are parameters. */
module Accounts {
  import opened Wrappers
  import Retry
  import Validators
  import Text

  /** A row of the `accounts` table. */
  datatype Account = Account(
    username: string,
    encryptedPassword: string,
    userId: string,
    verificationMethod: Option<string>,
    createdAt: int,
    lastUsed: Option<int>,
    isActive: bool,
    postsCount: nat,
    storiesCount: nat,
    reelsCount: nat)

  /** The table's unique constraint on `username`. */
  predicate UniqueUsernames(accounts: seq<Account>)
  {
    forall i, j :: 0 <= i < j < |accounts| ==> accounts[i].username != accounts[j].username
  }

  predicate HasUsername(accounts: seq<Account>, username: string)
  {
    exists i :: 0 <= i < |accounts| && accounts[i].username == username
  }

  predicate HasActive(accounts: seq<Account>, username: string)
  {
    exists i :: 0 <= i < |accounts| && accounts[i].username == username && accounts[i].isActive
  }

  /** `query(...).filter_by(username=u).first()`, as an index. */
  function IndexOf(accounts: seq<Account>, username: string): (r: Option<nat>)
    ensures r.None? <==> !HasUsername(accounts, username)
    ensures r.Some? ==> r.value < |accounts| && accounts[r.value].username == username
    ensures r.Some? ==> forall j :: 0 <= j < r.value ==> accounts[j].username != username
  {
    if |accounts| == 0 then None
    else if accounts[0].username == username then Some(0)
    else match IndexOf(accounts[1..], username)
      case None => None
      case Some(i) => Some(i + 1)
  }

  /** `query(...).filter_by(username=u, is_active=True).first()`, as an index. */
  function ActiveIndexOf(accounts: seq<Account>, username: string): (r: Option<nat>)
    ensures r.None? <==> !HasActive(accounts, username)
    ensures r.Some? ==> r.value < |accounts| && accounts[r.value].username == username
    ensures r.Some? ==> accounts[r.value].isActive
  {
    if |accounts| == 0 then None
    else if accounts[0].username == username && accounts[0].isActive then Some(0)
    else match ActiveIndexOf(accounts[1..], username)
      case None => None
      case Some(i) => Some(i + 1)
  }

  /** Python truthiness of an optional string: present and non-empty. */
  predicate Truthy(s: Option<string>)
  {
    s.Some? && s.value != ""
  }

  /** The remote login calls `init_instagram_client` can make. */
  datatype LoginCall =
    | PasswordLogin                 // cl.login(username, password)
    | LoginWithCode(code: string)   // cl.login(username, password, verification_code=code)
    | LoginThenChallenge            // cl.login(...) then cl.challenge_code_handler(username, password)

  /** The call `init_instagram_client` makes: the code travels inside the login call
      only for the email channel; for every other channel the password login is
      followed by the challenge handler, which is given no code at all. */
  function PlanLogin(code: Option<string>, channel: Option<string>): (c: LoginCall)
    ensures c.LoginWithCode? <==> Truthy(code) && channel == Some("email")
    ensures c.LoginWithCode? ==> Some(c.code) == code
    ensures c == LoginThenChallenge <==> Truthy(code) && Truthy(channel) && channel != Some("email")
    ensures c == PasswordLogin <==> !Truthy(code) || !Truthy(channel)
  {
    if Truthy(code) && Truthy(channel) then
      if channel.value == "email" then LoginWithCode(code.value) else LoginThenChallenge
    else PasswordLogin
  }

  /** `init_instagram_client`, decorated with `retry(max_attempts=3)` (delay 1):
      `remote(call, k)` is what attempt `k` of the login does; its value is the remote
      user id. */
  function InitClient(code: Option<string>, channel: Option<string>,
                      remote: (LoginCall, nat) -> Attempt<string>): Retry.RetryRun<string>
  {
    var call := PlanLogin(code, channel);
    Retry.Retry(3, 1, k => remote(call, k))
  }

  /** The user id of a login that succeeded within its three attempts. */
  function LoggedIn(run: Retry.RetryRun<string>): Option<string>
  {
    if run.outcome.Returns? && run.outcome.value.Some? then Some(run.outcome.value.value) else None
  }

  /** The row of a first-time account. */
  function NewAccount(username: string, encrypted: string, userId: string,
                      channel: Option<string>, now: int): Account
  {
    Account(username, encrypted, userId, channel, now, Some(now), true, 0, 0, 0)
  }

  /** The fields `add_account` overwrites on an existing row; identity, user id, creation
      time and counters are kept. */
  function Reactivated(a: Account, encrypted: string, channel: Option<string>, now: int): Account
  {
    a.(encryptedPassword := encrypted, verificationMethod := channel, lastUsed := Some(now), isActive := true)
  }

  datatype AddOutcome = AddOutcome(added: bool, accounts: seq<Account>)

  /** `add_account`: log in remotely (three attempts), then insert a new row or
      overwrite and reactivate the existing one; any exception rolls back and returns
      False. */
  function AddAccount(accounts: seq<Account>, username: string, password: string,
                      code: Option<string>, channel: Option<string>,
                      remote: (LoginCall, nat) -> Attempt<string>,
                      encrypt: string -> string, now: int): (r: AddOutcome)
    requires UniqueUsernames(accounts)
    ensures UniqueUsernames(r.accounts)
    ensures r.added <==> LoggedIn(InitClient(code, channel, remote)).Some?
    ensures !r.added ==> r.accounts == accounts
    ensures r.added ==> HasActive(r.accounts, username)
    ensures r.added && !HasUsername(accounts, username) ==>
      r.accounts == accounts + [NewAccount(username, encrypt(password),
                                           LoggedIn(InitClient(code, channel, remote)).value, channel, now)]
    ensures r.added && HasUsername(accounts, username) ==>
      |r.accounts| == |accounts| &&
      forall j :: 0 <= j < |accounts| ==>
        r.accounts[j] == (if accounts[j].username == username
                          then Reactivated(accounts[j], encrypt(password), channel, now)
                          else accounts[j])
  {
    match LoggedIn(InitClient(code, channel, remote))
    case None => AddOutcome(false, accounts)
    case Some(userId) =>
      var encrypted := encrypt(password);
      match IndexOf(accounts, username)
      case Some(i) =>
        var after := accounts[i := Reactivated(accounts[i], encrypted, channel, now)];
        assert after[i].username == username && after[i].isActive;
        AddOutcome(true, after)
      case None =>
        var after := accounts + [NewAccount(username, encrypted, userId, channel, now)];
        assert after[|accounts|].username == username && after[|accounts|].isActive;
        AddOutcome(true, after)
  }

  /** What `get_account_client` ends in: AccountNotFoundError raised, None returned
      (decryption or login failed), or a client, with `last_used` of the account
      stamped. */
  datatype ClientLookup =
    | AccountNotFound
    | ClientUnavailable
    | ClientReady(userId: string, accounts: seq<Account>)

  /** `get_account_client`. */
  function GetAccountClient(accounts: seq<Account>, username: string,
                            decrypt: string -> Option<string>,
                            remote: (LoginCall, nat) -> Attempt<string>, now: int): (r: ClientLookup)
    ensures r == AccountNotFound <==> !HasActive(accounts, username)
    ensures r.ClientReady? ==>
      |r.accounts| == |accounts| &&
      (exists i :: 0 <= i < |accounts| && accounts[i].username == username && accounts[i].isActive
                   && decrypt(accounts[i].encryptedPassword).Some?
                   && r.accounts == accounts[i := accounts[i].(lastUsed := Some(now))])
    ensures r.ClientReady? ==> LoggedIn(InitClient(None, None, remote)) == Some(r.userId)
    ensures r.ClientReady? <==>
      && ActiveIndexOf(accounts, username).Some?
      && decrypt(accounts[ActiveIndexOf(accounts, username).value].encryptedPassword).Some?
      && LoggedIn(InitClient(None, None, remote)).Some?
  {
    match ActiveIndexOf(accounts, username)
    case None => AccountNotFound
    case Some(i) =>
      match decrypt(accounts[i].encryptedPassword)
      case None => ClientUnavailable
      case Some(_) =>
        match LoggedIn(InitClient(None, None, remote))
        case None => ClientUnavailable
        case Some(userId) => ClientReady(userId, accounts[i := accounts[i].(lastUsed := Some(now))])
  }

  /** Replies of the two-factor code step of the conversation. */
  datatype CodeReply = InvalidCode | MissingData | Added | NotAdded

  /** The step's effect: the reply, the code handed to `add_account` (None when it was
      not called) and the account table afterwards. */
  datatype CodeStep = CodeStep(reply: CodeReply, codeSent: Option<string>, accounts: seq<Account>)

  /** `handle_2fa_code_input` under `validate_input('2fa_code')`: a text that is not
      six digits gets a reply and nothing else happens; otherwise the stripped code
      is passed with the remembered username, password and channel to `add_account`. */
  function HandleTwoFactorCode(text: string, username: Option<string>, password: Option<string>,
                               channel: Option<string>, accounts: seq<Account>,
                               remote: (LoginCall, nat) -> Attempt<string>,
                               encrypt: string -> string, now: int): (r: CodeStep)
    requires UniqueUsernames(accounts)
    ensures !Validators.Admits(Validators.TwoFactorCode, text) ==>
      r == CodeStep(InvalidCode, None, accounts)
    ensures r.codeSent.Some? ==> Validators.CodeShape(r.codeSent.value)
    ensures r.codeSent.Some? <==>
      Validators.Admits(Validators.TwoFactorCode, text) && Truthy(username) && Truthy(password) && Truthy(channel)
    ensures r.reply == Added ==> username.Some? && HasActive(r.accounts, username.value)
    ensures r.codeSent.None? ==> r.accounts == accounts
    ensures r.reply == MissingData <==>
      Validators.Admits(Validators.TwoFactorCode, text) && !(Truthy(username) && Truthy(password) && Truthy(channel))
    ensures r.codeSent.Some? ==> r.codeSent.value == Text.Strip(text) == Validators.ChompNewline(text)
    ensures r.codeSent.Some? ==>
      var out := AddAccount(accounts, username.value, password.value, r.codeSent, channel, remote, encrypt, now);
      r.accounts == out.accounts && (r.reply == Added <==> out.added) && (r.reply == NotAdded <==> !out.added)
    ensures UniqueUsernames(r.accounts)
  {
    if !Validators.Admits(Validators.TwoFactorCode, text) then CodeStep(InvalidCode, None, accounts)
    else
      var code := Text.Strip(text);
      if !(Truthy(username) && Truthy(password) && Truthy(channel)) then CodeStep(MissingData, None, accounts)
      else
        StrippedCode(text);
        var out := AddAccount(accounts, username.value, password.value, Some(code), channel, remote, encrypt, now);
        CodeStep(if out.added then Added else NotAdded, Some(code), out.accounts)
  }

  /** Stripping an admitted code leaves exactly its six digits. */
  lemma StrippedCode(text: string)
    requires Validators.Admits(Validators.TwoFactorCode, text)
    ensures Text.Strip(text) == Validators.ChompNewline(text)
    ensures Validators.CodeShape(Text.Strip(text))
  {
    var body := Validators.ChompNewline(text);
    assert Validators.CodeShape(body);
    assert forall i :: 0 <= i < |body| ==> !Text.IsSpace(body[i]);
    if text == body {
      Text.StripNoSpace(body);
    } else {
      Text.StripFinalNewline(body);
    }
  }

  /** Adding an account that succeeded always leaves exactly one row, active, for the
      username: the upsert never duplicates. */
  lemma {:induction false} AddLeavesOneActiveRow(accounts: seq<Account>, username: string, password: string,
                                code: Option<string>, channel: Option<string>,
                                remote: (LoginCall, nat) -> Attempt<string>,
                                encrypt: string -> string, now: int)
    requires UniqueUsernames(accounts)
    requires AddAccount(accounts, username, password, code, channel, remote, encrypt, now).added
    ensures var after := AddAccount(accounts, username, password, code, channel, remote, encrypt, now).accounts;
      exists i :: 0 <= i < |after| && after[i].username == username && after[i].isActive &&
        after[i].encryptedPassword == encrypt(password) && after[i].verificationMethod == channel &&
        after[i].lastUsed == Some(now) &&
        forall j :: 0 <= j < |after| && j != i ==> after[j].username != username
  {
    var after := AddAccount(accounts, username, password, code, channel, remote, encrypt, now).accounts;
    if HasUsername(accounts, username) {
      var i :| 0 <= i < |accounts| && accounts[i].username == username;
      assert after[i] == Reactivated(accounts[i], encrypt(password), channel, now);
    } else {
      var i := |accounts|;
      assert after[i].username == username;
    }
  }

  /** A valid code with the remembered data, whose login goes through, ends with the
      account added: exactly one active row for the username, holding the new password
      and channel. */
  lemma {:induction false} CodeStepAddsAccount(text: string, username: string, password: string, channel: string,
                                               accounts: seq<Account>,
                                               remote: (LoginCall, nat) -> Attempt<string>,
                                               encrypt: string -> string, now: int)
    requires UniqueUsernames(accounts)
    requires Validators.Admits(Validators.TwoFactorCode, text)
    requires username != "" && password != "" && channel != ""
    requires LoggedIn(InitClient(Some(Text.Strip(text)), Some(channel), remote)).Some?
    ensures var r := HandleTwoFactorCode(text, Some(username), Some(password), Some(channel), accounts,
                                         remote, encrypt, now);
      && r.reply == Added
      && exists i :: 0 <= i < |r.accounts| && r.accounts[i].username == username && r.accounts[i].isActive
           && r.accounts[i].encryptedPassword == encrypt(password) && r.accounts[i].verificationMethod == Some(channel)
           && forall j :: 0 <= j < |r.accounts| && j != i ==> r.accounts[j].username != username
  {
    AddLeavesOneActiveRow(accounts, username, password, Some(Text.Strip(text)), Some(channel), remote, encrypt, now);
  }
}
