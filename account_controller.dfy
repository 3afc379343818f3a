/**
 * The account handlers: registration, login, the account-update view, the account
 * update and the password change.
 *
 * Password hashing and comparison are library calls given as answer functions:
 * `hash(password)` is the hash, or None when hashing throws; `compare(password, stored)`
 * is the comparison's verdict, or an error when it throws. Token signing is
 * `Http.Sign`. A handler that throws returns the error for the error handler.
 */
module AccountController {
  import opened Wrappers
  import opened Js
  import opened Http
  import opened Stores
  import AccountValidation

  const RegisterErrorNotice := "Sorry, there was an error processing the registration."
  const RegisterFailedNotice := "Sorry, the registration failed."
  const CredentialsNotice := "Please check your credentials and try again."
  const UnauthorizedNotice := "Unauthorized access attempt."
  const AccountUpdatedNotice := "Account details updated successfully."
  const AccountUpdateFailedNotice := "Sorry, the account update failed."
  const PasswordErrorNotice := "Sorry, there was an error processing the password."
  const PasswordUpdatedNotice := "Password updated successfully."
  const PasswordFailedNotice := "Sorry, the password change failed."
  const AccessForbidden := "Access Forbidden"

  /** The welcome flash after a registration. */
  function RegisteredNotice(firstname: Value): string
  {
    "Congratulations, you're registered " + ToStr(firstname) + ". Please log in."
  }

  // ----- registration -----

  /** The registration form re-rendered after a hashing failure, keeping the submitted
      names and address. */
  function RegisterRetryView(nav: string, body: map<string, string>): (v: View)
    ensures v.name == "account/register"
    ensures forall k :: k in v.data <==> k in ["title", "nav", "errors", "account_firstname", "account_lastname", "account_email"]
  {
    View("account/register", map[
      "title" := Str("Registration"), "nav" := Str(nav), "errors" := Null,
      "account_firstname" := BodyValue(body, "account_firstname"),
      "account_lastname" := BodyValue(body, "account_lastname"),
      "account_email" := BodyValue(body, "account_email")])
  }

  /** `registerAccount`. A hashing failure answers 500 with the sticky form and never
      reaches the store. Otherwise exactly one insert is made with the hash (never the
      password itself); success answers 201 with the login view, failure 501 with an
      empty registration form. */
  method RegisterAccount(req: Request, res: Response, accounts: AccountStore, hash: Value -> Option<string>, nav: string)
    modifies req`flashes, res`statusCode, res`rendered, accounts`queries
    ensures var password := BodyValue(req.body, "account_password");
            hash(password).None? ==>
              && accounts.queries == old(accounts.queries)
              && res.statusCode == 500 && res.rendered == Some(RegisterRetryView(nav, req.body))
              && req.flashes == old(req.flashes) + [FlashMessage("notice", RegisterErrorNotice)]
    ensures var first := BodyValue(req.body, "account_firstname");
            var last := BodyValue(req.body, "account_lastname");
            var email := BodyValue(req.body, "account_email");
            var hashed := hash(BodyValue(req.body, "account_password"));
            hashed.Some? ==>
              && accounts.queries == old(accounts.queries) + [InsertAccount(first, last, email, hashed.value)]
              && (Truthy(accounts.registerAnswer(first, last, email, hashed.value)) ==>
                    && res.statusCode == 201
                    && res.rendered == Some(View("account/login", map["title" := Str("Login"), "nav" := Str(nav)]))
                    && req.flashes == old(req.flashes) + [FlashMessage("notice", RegisteredNotice(first))])
              && (!Truthy(accounts.registerAnswer(first, last, email, hashed.value)) ==>
                    && res.statusCode == 501
                    && res.rendered == Some(View("account/register", map["title" := Str("Registration"), "nav" := Str(nav)]))
                    && req.flashes == old(req.flashes) + [FlashMessage("notice", RegisterFailedNotice)])
  {
    var first := BodyValue(req.body, "account_firstname");
    var last := BodyValue(req.body, "account_lastname");
    var email := BodyValue(req.body, "account_email");
    var hashed := hash(BodyValue(req.body, "account_password"));
    if hashed.None? {
      req.Flash("notice", RegisterErrorNotice);
      res.Status(500);
      var view := RegisterRetryView(nav, req.body);
      res.Render(view.name, view.data);
      return;
    }
    var regResult := accounts.RegisterAccount(first, last, email, hashed.value);
    if Truthy(regResult) {
      req.Flash("notice", RegisteredNotice(first));
      res.Status(201);
      res.Render("account/login", map["title" := Str("Login"), "nav" := Str(nav)]);
    } else {
      req.Flash("notice", RegisterFailedNotice);
      res.Status(501);
      res.Render("account/register", map["title" := Str("Registration"), "nav" := Str(nav)]);
    }
  }

  // ----- login -----

  /** The login form re-rendered after a failed attempt, keeping the submitted address. */
  function LoginRetryView(nav: string, email: Value): View
  {
    View("account/login", map["title" := Str("Login"), "nav" := Str(nav), "errors" := Null, "account_email" := email])
  }

  /** The session cookie set at login: always `httpOnly`, `secure` unless `NODE_ENV` is
      "development", and living `3600 * 1000` milliseconds. */
  function LoginCookie(token: Token, cfg: Config): (c: Cookie)
    ensures c.name == "jwt" && c.token == token && c.httpOnly && c.maxAge == CookieMaxAge
    ensures c.secure <==> cfg.nodeEnv != Some("development")
  {
    if IsDevelopment(cfg) then Cookie("jwt", token, true, false, CookieMaxAge)
    else Cookie("jwt", token, true, true, CookieMaxAge)
  }

  /** The token issued at login carries the account record without its password hash;
      every other field of the record is carried unchanged. */
  lemma LoginTokenHidesPassword(account: Value, cfg: Config)
    requires account.Obj?
    ensures var t := Sign(Delete(account, "account_password"), cfg);
            t.Ok? ==> && "account_password" !in t.value.payload
                      && (forall k :: k in account.fields && k != "account_password" ==>
                            k in t.value.payload && t.value.payload[k] == account.fields[k])
                      && (forall k :: k in t.value.payload ==> k in account.fields)
  {
  }

  /** `accountLogin`. An unknown address answers 400 with the login form. A wrong
      password answers 400 the same way. A matching password signs a token from the
      record without its password hash, sets it as the session cookie and redirects to
      the account page. A failure while comparing or signing throws "Access Forbidden".
      A cookie is set only on a successful login. */
  method AccountLogin(req: Request, res: Response, accounts: AccountStore,
                      compare: (Value, Value) -> Result<bool, JsError>, cfg: Config, nav: string)
    returns (thrown: Option<JsError>)
    modifies req`flashes, res`statusCode, res`rendered, res`location, res`cookies, accounts`queries
    ensures var email := BodyValue(req.body, "account_email");
            accounts.queries == old(accounts.queries) + [SelectAccountByEmail(email)]
    ensures var email := BodyValue(req.body, "account_email");
            var account := accounts.byEmail(email);
            !Truthy(account) ==>
              && thrown == None && res.statusCode == 400 && res.rendered == Some(LoginRetryView(nav, email))
              && req.flashes == old(req.flashes) + [FlashMessage("notice", CredentialsNotice)]
              && res.cookies == old(res.cookies) && res.location == old(res.location)
    ensures var email := BodyValue(req.body, "account_email");
            var account := accounts.byEmail(email);
            Truthy(account) ==>
              var verdict := compare(BodyValue(req.body, "account_password"), Get(account, "account_password").value);
              && (verdict.Err? ==> thrown == Some(PlainError(AccessForbidden)))
              && (verdict == Ok(false) ==>
                    && thrown == None && res.statusCode == 400 && res.rendered == Some(LoginRetryView(nav, email))
                    && req.flashes == old(req.flashes) + [FlashMessage("message notice", CredentialsNotice)]
                    && res.cookies == old(res.cookies) && res.location == old(res.location))
              && (verdict == Ok(true) ==>
                    var token := Sign(Delete(account, "account_password"), cfg);
                    && (token.Err? ==> thrown == Some(PlainError(AccessForbidden)))
                    && (token.Ok? ==>
                          && thrown == None && res.cookies == old(res.cookies) + [LoginCookie(token.value, cfg)]
                          && res.statusCode == 302 && res.location == Some("/account/")
                          && res.rendered == old(res.rendered) && req.flashes == old(req.flashes)))
    ensures res.cookies != old(res.cookies) ==> thrown == None && res.location == Some("/account/")
    ensures thrown.Some? ==> res.cookies == old(res.cookies) && res.rendered == old(res.rendered)
                             && res.location == old(res.location) && req.flashes == old(req.flashes)
                             && res.statusCode == old(res.statusCode)
  {
    var email := BodyValue(req.body, "account_email");
    var password := BodyValue(req.body, "account_password");
    var accountData := accounts.GetAccountByEmail(email);
    if !Truthy(accountData) {
      req.Flash("notice", CredentialsNotice);
      res.Status(400);
      var view := LoginRetryView(nav, email);
      res.Render(view.name, view.data);
      return None;
    }
    var verdict := compare(password, Get(accountData, "account_password").value);
    if verdict.Err? {
      return Some(PlainError(AccessForbidden));
    }
    if verdict.value {
      var payload := Delete(accountData, "account_password");
      var token := Sign(payload, cfg);
      if token.Err? {
        return Some(PlainError(AccessForbidden));
      }
      res.SetCookie(LoginCookie(token.value, cfg));
      res.Redirect("/account/");
      return None;
    }
    req.Flash("message notice", CredentialsNotice);
    res.Status(400);
    var view := LoginRetryView(nav, email);
    res.Render(view.name, view.data);
    return None;
  }

  // ----- account update -----

  /** The account-update form; the account data it shows is taken from `res.locals`. */
  function UpdateFormView(nav: string): View
  {
    View("account/account-update", map["title" := Str("Account Update"), "nav" := Str(nav), "errors" := Null])
  }

  /** `buildUpdateView`. The account named in the URL is loaded; unless it is the
      logged-in account the visitor is redirected to the account page and nothing is
      rendered. Loading an account that does not exist throws when its identifier is
      read. */
  method BuildUpdateView(req: Request, res: Response, accounts: AccountStore, nav: string)
    returns (thrown: Option<JsError>)
    modifies req`flashes, res`statusCode, res`location, res`rendered, accounts`queries
    ensures var id := ParseIntValue(Field(req.params, "accountId"));
            accounts.queries == old(accounts.queries) + [SelectAccountById(id)]
    ensures var stored := Get(accounts.byId(ParseIntValue(Field(req.params, "accountId"))), "account_id");
            var session := SessionAccountId(res.locals);
            && (stored.Err? ==> thrown == Some(stored.error))
            && (stored.Ok? && session.Err? ==> thrown == Some(session.error))
            && (stored.Ok? && session.Ok? && !StrictEquals(stored.value, session.value) ==>
                  && thrown == None && res.statusCode == 302 && res.location == Some("/account/")
                  && res.rendered == old(res.rendered)
                  && req.flashes == old(req.flashes) + [FlashMessage("notice", UnauthorizedNotice)])
            && (stored.Ok? && session.Ok? && StrictEquals(stored.value, session.value) ==>
                  && thrown == None && res.rendered == Some(UpdateFormView(nav))
                  && res.statusCode == old(res.statusCode)
                  && res.location == old(res.location) && req.flashes == old(req.flashes))
    ensures thrown.Some? ==> res.rendered == old(res.rendered) && res.location == old(res.location)
                             && req.flashes == old(req.flashes) && res.statusCode == old(res.statusCode)
  {
    var accountId := ParseIntValue(Field(req.params, "accountId"));
    var accountData := accounts.GetAccountById(accountId);
    var stored := Get(accountData, "account_id");
    if stored.Err? {
      return Some(stored.error);
    }
    var session := SessionAccountId(res.locals);
    if session.Err? {
      return Some(session.error);
    }
    if !StrictEquals(stored.value, session.value) {
      req.Flash("notice", UnauthorizedNotice);
      res.Redirect("/account/");
      return None;
    }
    var view := UpdateFormView(nav);
    res.Render(view.name, view.data);
    return None;
  }

  /** The cookie set after an account update: `httpOnly`, without the `secure` flag. */
  function RefreshCookie(token: Token): Cookie
  {
    Cookie("jwt", token, true, false, CookieMaxAge)
  }

  /** `updateAccount`. The update is sent with the submitted names, address and
      identifier. On success the record is read again, a token is signed from it (the
      whole record) and set as the cookie, the record becomes `res.locals.accountData`,
      and the visitor is redirected. On failure the record is read again and shown with
      only the submitted names and address laid over it. */
  method UpdateAccount(req: Request, res: Response, accounts: AccountStore, cfg: Config, nav: string)
    returns (thrown: Option<JsError>)
    modifies req`flashes, res`statusCode, res`location, res`rendered, res`cookies, res`locals, accounts`queries
    ensures var first := BodyValue(req.body, "account_firstname");
            var last := BodyValue(req.body, "account_lastname");
            var email := BodyValue(req.body, "account_email");
            var id := BodyValue(req.body, "account_id");
            accounts.queries == old(accounts.queries) + [UpdateAccountRow(first, last, email, id), SelectAccountById(id)]
    ensures var first := BodyValue(req.body, "account_firstname");
            var last := BodyValue(req.body, "account_lastname");
            var email := BodyValue(req.body, "account_email");
            var id := BodyValue(req.body, "account_id");
            var account := accounts.byId(id);
            Truthy(accounts.updateAnswer(first, last, email, id)) ==>
              var token := Sign(account, cfg);
              && (token.Err? ==> thrown == Some(token.error) && res.cookies == old(res.cookies)
                                 && res.locals == old(res.locals) && res.location == old(res.location)
                                 && res.statusCode == old(res.statusCode))
              && (token.Ok? ==>
                    && thrown == None && res.cookies == old(res.cookies) + [RefreshCookie(token.value)]
                    && res.locals == old(res.locals)["accountData" := account]
                    && res.statusCode == 302 && res.location == Some("/account/"))
              && req.flashes == old(req.flashes) + [FlashMessage("notice", AccountUpdatedNotice)]
              && res.rendered == old(res.rendered)
    ensures var first := BodyValue(req.body, "account_firstname");
            var last := BodyValue(req.body, "account_lastname");
            var email := BodyValue(req.body, "account_email");
            var id := BodyValue(req.body, "account_id");
            var account := accounts.byId(id);
            !Truthy(accounts.updateAnswer(first, last, email, id)) ==>
              && thrown == None
              && res.locals == old(res.locals)["accountData" := Obj(AccountValidation.StickyAccount(account, req.body))]
              && res.rendered == Some(UpdateFormView(nav)) && res.statusCode == old(res.statusCode)
              && req.flashes == old(req.flashes) + [FlashMessage("notice", AccountUpdateFailedNotice)]
              && res.cookies == old(res.cookies) && res.location == old(res.location)
  {
    var first := BodyValue(req.body, "account_firstname");
    var last := BodyValue(req.body, "account_lastname");
    var email := BodyValue(req.body, "account_email");
    var id := BodyValue(req.body, "account_id");
    var updateResult := accounts.UpdateAccount(first, last, email, id);
    if Truthy(updateResult) {
      req.Flash("notice", AccountUpdatedNotice);
      var accountData := accounts.GetAccountById(id);
      var token := Sign(accountData, cfg);
      if token.Err? {
        return Some(token.error);
      }
      res.SetCookie(RefreshCookie(token.value));
      res.SetLocal("accountData", accountData);
      res.Redirect("/account/");
      return None;
    }
    req.Flash("notice", AccountUpdateFailedNotice);
    var accountData := accounts.GetAccountById(id);
    res.SetLocal("accountData", Obj(AccountValidation.StickyAccount(accountData, req.body)));
    var view := UpdateFormView(nav);
    res.Render(view.name, view.data);
    return None;
  }

  /** After a failed update, the record shown differs from the stored one in at most the
      three submitted fields. */
  lemma FailedUpdateOverlay(account: Value, body: map<string, string>)
    ensures var shown := AccountValidation.StickyAccount(account, body);
            && (forall k :: k in Spread(account) && k !in ["account_firstname", "account_lastname", "account_email"] ==>
                  k in shown && shown[k] == Spread(account)[k])
            && shown["account_firstname"] == BodyValue(body, "account_firstname")
            && shown["account_lastname"] == BodyValue(body, "account_lastname")
            && shown["account_email"] == BodyValue(body, "account_email")
            && (forall k :: k in shown ==> k in Spread(account) || k in ["account_firstname", "account_lastname", "account_email"])
  {
  }

  // ----- password change -----

  /** `updatePassword`. Every path redirects to the account page. A hashing failure
      skips the store; otherwise exactly one update is made, with the hash. */
  method UpdatePassword(req: Request, res: Response, accounts: AccountStore, hash: Value -> Option<string>)
    modifies req`flashes, res`statusCode, res`location, accounts`queries
    ensures res.statusCode == 302 && res.location == Some("/account/")
    ensures var hashed := hash(BodyValue(req.body, "account_password"));
            var id := BodyValue(req.body, "account_id");
            && (hashed.None? ==>
                  && accounts.queries == old(accounts.queries)
                  && req.flashes == old(req.flashes) + [FlashMessage("notice", PasswordErrorNotice)])
            && (hashed.Some? ==>
                  && accounts.queries == old(accounts.queries) + [UpdatePasswordRow(hashed.value, id)]
                  && req.flashes == old(req.flashes) + [FlashMessage("notice",
                       if Truthy(accounts.passwordAnswer(hashed.value, id)) then PasswordUpdatedNotice
                       else PasswordFailedNotice)])
  {
    var id := BodyValue(req.body, "account_id");
    var hashed := hash(BodyValue(req.body, "account_password"));
    if hashed.None? {
      req.Flash("notice", PasswordErrorNotice);
      res.Redirect("/account/");
      return;
    }
    var updateResult := accounts.UpdatePassword(hashed.value, id);
    if Truthy(updateResult) {
      req.Flash("notice", PasswordUpdatedNotice);
    } else {
      req.Flash("notice", PasswordFailedNotice);
    }
    res.Redirect("/account/");
  }
}
