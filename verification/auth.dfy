/**
 * The auth hook: the `AuthState` record and the updates each listener and
 * action makes to it. Everything the identity provider, the browser and the
 * local OAuth server answer is a parameter; the remote store is passed in so
 * that the migration of an anonymous user's entries can run.
 */
module Auth {
  import opened Common
  import opened Domain
  import opened RemoteStore

  /** `AuthState`. */
  datatype AuthState = AuthState(user: Option<AuthUser>, isLoading: bool, isAnonymous: bool, error: Option<string>)

  const InitialAuthState: AuthState := AuthState(None, true, false, None)

  /** `error.message || fallback`: a thrown error's message, or the fallback when it is empty. */
  function ErrorText(message: string, fallback: string): (t: string)
    ensures fallback != "" ==> t != ""
    ensures message != "" ==> t == message
  {
    if message != "" then message else fallback
  }

  /** Where `signInWithGoogle` and `linkAnonymousWithGoogle` run. */
  datatype Environment = Electron | Web

  /** What `waitForAuthCallback` resolves to: the `code` and `error` query values. */
  datatype Callback = Callback(code: Option<string>, error: Option<string>)

  /**
   * The migration trigger of `signInWithGoogle`: the user before the sign-in
   * was anonymous, had a uid, and the new uid differs.
   */
  predicate ShouldMigrateAfterSignIn(previous: Option<AuthUser>, next: AuthUser)
  {
    previous.Some? && previous.value.isAnonymous && previous.value.uid != "" && next.uid != previous.value.uid
  }

  /** The trigger of the redirect check: the current user is anonymous and the uid differs. */
  predicate ShouldMigrateAfterRedirect(current: Option<AuthUser>, next: AuthUser)
  {
    current.Some? && current.value.isAnonymous && next.uid != current.value.uid
  }

  /**
   * A migration onto the same uid would erase the collection; both triggers
   * only fire between two different users, so the migration they start moves
   * every document of the previous user into the new user's collection and
   * empties the previous one. The sign-in trigger is the stricter of the two.
   */
  lemma TriggersNeverMigrateOntoItself(previous: Option<AuthUser>, next: AuthUser, db: Db, serverNow: int)
    ensures previous.Some? && previous.value.uid == next.uid && CollectionOf(db, next.uid) != map[] ==>
      CollectionOf(AfterMigration(db, next.uid, next.uid, serverNow), next.uid) == map[]
    ensures ShouldMigrateAfterSignIn(previous, next) ==> ShouldMigrateAfterRedirect(previous, next)
    ensures ShouldMigrateAfterRedirect(previous, next) ==>
      var source := previous.value.uid;
      var after := AfterMigration(db, source, next.uid, serverNow);
      && (forall id | id in CollectionOf(db, source) :: id in CollectionOf(after, next.uid)
            && CollectionOf(after, next.uid)[id] == MigratedDoc(CollectionOf(db, source)[id], source, next.uid, serverNow))
      && CollectionOf(after, source) == map[]
  {
    if previous.Some? && previous.value.uid == next.uid && CollectionOf(db, next.uid) != map[] {
      MigrationOntoItselfErases(db, next.uid, serverNow);
    }
    if ShouldMigrateAfterRedirect(previous, next) {
      MigrationMovesDocs(db, previous.value.uid, next.uid, serverNow);
    }
  }

  class AuthHook {
    var state: AuthState

    /** A state that claims an anonymous session always has a user. */
    predicate Valid()
      reads this
    {
      state.isAnonymous ==> state.user.Some?
    }

    constructor()
      ensures Valid() && state == InitialAuthState
    {
      state := InitialAuthState;
    }

    /**
     * The auth-state listener: records the user (or none), its anonymity and
     * the end of loading; answers whether it starts an anonymous sign-in,
     * which it does only for no user while the state was still loading.
     */
    method OnAuthChanged(u: Option<AuthUser>) returns (startAnonymous: bool)
      requires Valid()
      modifies this
      ensures Valid()
      ensures state == old(state).(user := u, isAnonymous := u.Some? && u.value.isAnonymous, isLoading := false)
      ensures startAnonymous <==> u.None? && old(state).isLoading
    {
      startAnonymous := u.None? && state.isLoading;
      state := state.(user := u, isAnonymous := u.Some? && u.value.isAnonymous, isLoading := false);
    }

    /** The anonymous sign-in the listener started has settled. */
    method OnAnonymousSignIn(result: Result<AuthUser>)
      requires Valid()
      modifies this
      ensures Valid()
      ensures result.Ok? ==> state == old(state).(user := Some(result.value), isLoading := false, isAnonymous := true, error := None)
      ensures result.Err? ==>
        state == AuthState(None, false, false, Some(ErrorText(result.msg, "Error al inicializar la autenticación")))
    {
      if result.Ok? {
        state := state.(user := Some(result.value), isLoading := false, isAnonymous := true, error := None);
      } else {
        state := state.(user := None, isLoading := false, isAnonymous := false,
                        error := Some(ErrorText(result.msg, "Error al inicializar la autenticación")));
      }
    }

    /**
     * `handleAuthCallback`: takes the user the redirect result reports, if
     * any. The redirect lookup swallows its own errors, so the handler's
     * error branch is never reached.
     */
    method HandleAuthCallback(redirectUser: Option<AuthUser>)
      requires Valid()
      modifies this
      ensures Valid()
      ensures redirectUser.None? ==> state == old(state)
      ensures redirectUser.Some? ==> state == old(state).(user := redirectUser,
        isAnonymous := redirectUser.value.isAnonymous, isLoading := false, error := None)
    {
      if redirectUser.Some? {
        state := state.(user := redirectUser, isAnonymous := redirectUser.value.isAnonymous,
                        isLoading := false, error := None);
      }
    }

    /**
     * `checkRedirectResult`: for a user coming back from a redirect, first
     * migrates the entries of the current anonymous user when the trigger
     * holds, then records the user. A failed migration leaves the user as it
     * was and records the error; the migration fails when its read of the
     * source rejects (`readFails`), or when the source is non-empty and one of
     * its two batches fails. `current` is what `getCurrentUser()` returns.
     */
    method CheckRedirectResult(redirectUser: Option<AuthUser>, current: Option<AuthUser>, store: Firestore,
                               serverNow: int, readFails: bool, copyFails: bool, deleteFails: bool)
      returns (migration: Option<(Uid, Uid)>, failed: bool)
      requires Valid()
      modifies this, store
      ensures Valid()
      ensures store.currentUser == old(store.currentUser)
      ensures migration.Some? <==> redirectUser.Some? && ShouldMigrateAfterRedirect(current, redirectUser.value)
      ensures migration.Some? ==>
        migration.value == (current.value.uid, redirectUser.value.uid) && migration.value.0 != migration.value.1
      ensures migration.None? ==> store.db == old(store.db)
      ensures failed <==>
        (migration.Some? && (readFails || (CollectionOf(old(store.db), migration.value.0) != map[] && (copyFails || deleteFails))))
      ensures redirectUser.None? ==> state == old(state)
      ensures redirectUser.Some? && !failed ==>
        state == old(state).(user := redirectUser, isAnonymous := redirectUser.value.isAnonymous, isLoading := false)
      ensures failed ==> state.error.Some? && state == old(state).(error := state.error, isLoading := false)
    {
      migration, failed := None, false;
      if redirectUser.None? {
        return;
      }
      var u := redirectUser.value;
      if ShouldMigrateAfterRedirect(current, u) {
        migration := Some((current.value.uid, u.uid));
        var r := store.Migrate(current.value.uid, u.uid, serverNow, readFails, copyFails, deleteFails);
        if r.Err? {
          failed := true;
          state := state.(error := Some(ErrorText(r.msg, "Error al procesar la autenticación con Google")),
                          isLoading := false);
          return;
        }
      }
      state := state.(user := redirectUser, isAnonymous := u.isAnonymous, isLoading := false);
    }

    /**
     * `signInWithGoogle`. In Electron: loading starts and the error clears;
     * `io` is what the local server and browser steps answer (or the error one
     * of them throws); a callback carrying an `error` or lacking a `code`
     * aborts; `signIn` is the code exchange. When the user before the action
     * was anonymous and the new uid differs, that user's entries are migrated
     * before the new user is recorded; that migration fails as in
     * `CheckRedirectResult`. On the web the redirect leaves the page,
     * so the state stays loading. Every failure keeps the user, records the
     * error and ends loading.
     */
    method SignInWithGoogle(env: Environment, io: Result<Callback>, signIn: Result<AuthUser>, store: Firestore,
                            serverNow: int, readFails: bool, copyFails: bool, deleteFails: bool,
                            redirectFails: Option<string>)
      returns (migration: Option<(Uid, Uid)>, failed: bool)
      requires Valid()
      modifies this, store
      ensures Valid()
      ensures store.currentUser == old(store.currentUser)
      ensures migration.Some? ==>
        (env == Electron && signIn.Ok?
         && ShouldMigrateAfterSignIn(old(state).user, signIn.value)
         && migration.value == (old(state).user.value.uid, signIn.value.uid)
         && migration.value.0 != migration.value.1)
      ensures migration.None? ==> store.db == old(store.db)
      ensures migration.Some? ==>
        (failed <==> readFails || (CollectionOf(old(store.db), migration.value.0) != map[] && (copyFails || deleteFails)))
      ensures env == Electron && io.Ok? && !Truthy(io.value.error) && Truthy(io.value.code) && signIn.Ok? ==>
        (migration.Some? <==> ShouldMigrateAfterSignIn(old(state).user, signIn.value))
      ensures env == Electron && (io.Err? || Truthy(io.value.error) || !Truthy(io.value.code)) ==>
        failed && migration.None?
      ensures failed ==>
        state == old(state).(isLoading := false, error := state.error) && state.error.Some?
      ensures env == Electron && !failed ==>
        signIn.Ok? && state == old(state).(user := Some(signIn.value), isAnonymous := false, isLoading := false, error := None)
      ensures env == Web ==> (failed <==> redirectFails.Some?)
      ensures env == Web && !failed ==> state == old(state).(isLoading := true, error := None)
    {
      var before := state;
      state := state.(isLoading := true, error := None);
      migration, failed := None, false;
      var thrown: string;
      if env == Web {
        if redirectFails.None? {
          return;
        }
        thrown := redirectFails.value;
      } else if io.Err? {
        thrown := io.msg;
      } else if Truthy(io.value.error) {
        thrown := "Error en autenticación: " + io.value.error.value;
      } else if !Truthy(io.value.code) {
        thrown := "No se recibió código de autorización";
      } else if signIn.Err? {
        thrown := signIn.msg;
      } else {
        var u := signIn.value;
        if ShouldMigrateAfterSignIn(before.user, u) {
          migration := Some((before.user.value.uid, u.uid));
          var r := store.Migrate(before.user.value.uid, u.uid, serverNow, readFails, copyFails, deleteFails);
          if r.Err? {
            failed := true;
            state := state.(error := Some(ErrorText(r.msg, "Error al autenticar con Google")), isLoading := false);
            return;
          }
        }
        state := state.(user := Some(u), isAnonymous := false, isLoading := false, error := None);
        return;
      }
      failed := true;
      state := state.(error := Some(ErrorText(thrown, "Error al autenticar con Google")), isLoading := false);
    }

    /**
     * `logout`: signs out and starts a fresh anonymous session, which then
     * replaces the whole state; a failure of either step keeps the user and
     * records the error.
     */
    method Logout(signOut: Result<()>, anonymous: Result<AuthUser>)
      requires Valid()
      modifies this
      ensures Valid()
      ensures signOut.Ok? && anonymous.Ok? ==> state == AuthState(Some(anonymous.value), false, true, None)
      ensures signOut.Err? ==> state == old(state).(isLoading := false, error := Some(ErrorText(signOut.msg, "Error al cerrar sesión")))
      ensures signOut.Ok? && anonymous.Err? ==>
        state == old(state).(isLoading := false, error := Some(ErrorText(anonymous.msg, "Error al cerrar sesión")))
    {
      state := state.(isLoading := true, error := None);
      if signOut.Err? {
        state := state.(error := Some(ErrorText(signOut.msg, "Error al cerrar sesión")), isLoading := false);
      } else if anonymous.Err? {
        state := state.(error := Some(ErrorText(anonymous.msg, "Error al cerrar sesión")), isLoading := false);
      } else {
        state := AuthState(Some(anonymous.value), false, true, None);
      }
    }

    /**
     * `linkAnonymousWithGoogle`: throws, changing nothing, unless the user is
     * anonymous. In Electron it opens the browser (`browser` is the outcome) and ends loading;
     * on the web the redirect leaves the page loading. A failure records the
     * error and ends loading.
     */
    method LinkAnonymousWithGoogle(env: Environment, browser: Result<()>) returns (r: Result<()>)
      requires Valid()
      modifies this
      ensures Valid()
      ensures !(old(state).user.Some? && old(state).user.value.isAnonymous) ==>
        r == Err("Solo usuarios anónimos pueden vincular cuentas") && state == old(state)
      ensures old(state).user.Some? && old(state).user.value.isAnonymous ==> r.Ok?
      ensures r.Ok? && browser.Err? ==>
        state == old(state).(isLoading := false, error := Some(ErrorText(browser.msg, "Error al vincular con Google")))
      ensures r.Ok? && browser.Ok? ==> state == old(state).(isLoading := env == Web, error := None)
    {
      if !(state.user.Some? && state.user.value.isAnonymous) {
        return Err("Solo usuarios anónimos pueden vincular cuentas");
      }
      state := state.(isLoading := true, error := None);
      if browser.Err? {
        state := state.(error := Some(ErrorText(browser.msg, "Error al vincular con Google")), isLoading := false);
      } else if env == Electron {
        state := state.(isLoading := false, error := None);
      }
      r := Ok(());
    }

    /** `clearError`: only the error goes. */
    method ClearError()
      requires Valid()
      modifies this
      ensures Valid()
      ensures state == old(state).(error := None)
    {
      state := state.(error := None);
    }
  }
}
