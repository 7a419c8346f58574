/** The client-side user store of frontend-next/src/store/userStore.ts: four
    fields that `setUser`, `setDemoData` and `clearUser` overwrite, with the
    signed-in flag kept equal to "a user is present". */
module UserStore {
  import opened Wrappers

  /** The account record the store holds; optional JSON members are `None`
      when absent or null. */
  datatype User = User(
    id: int, username: string, email: string,
    name: Option<string>, profilePhoto: Option<string>,
    created: Option<bool>, premiumPlanId: Option<int>,
    planName: Option<string>, isPro: Option<bool>)

  class Store {
    var user: Option<User>
    var isAuthenticated: bool
    var demoCount: Option<int>
    var jwt: Option<string>

    /** The flag says whether a user is present. */
    predicate Valid()
      reads this
    {
      isAuthenticated <==> user.Some?
    }

    /** Nobody signed in and no demo session. */
    predicate Initial()
      reads this
    {
      user.None? && !isAuthenticated && demoCount.None? && jwt.None?
    }

    /** The store as created. */
    constructor()
      ensures Initial() && Valid()
    {
      user := None;
      isAuthenticated := false;
      demoCount := None;
      jwt := None;
    }

    /** `setUser`: the flag follows the user, whatever it was before; the
        demo fields are untouched. */
    method SetUser(u: Option<User>)
      modifies this
      ensures user == u && isAuthenticated == u.Some?
      ensures demoCount == old(demoCount) && jwt == old(jwt)
      ensures Valid()
    {
      user := u;
      isAuthenticated := u.Some?;
    }

    /** `setDemoData`: only the demo count and token change, so the flag
        stays consistent exactly when it was. */
    method SetDemoData(count: Option<int>, token: Option<string>)
      modifies this
      ensures demoCount == count && jwt == token
      ensures user == old(user) && isAuthenticated == old(isAuthenticated)
      ensures Valid() <==> old(Valid())
    {
      demoCount := count;
      jwt := token;
    }

    /** `clearUser`: back to the state the store was created in. */
    method ClearUser()
      modifies this
      ensures Initial() && Valid()
    {
      user := None;
      isAuthenticated := false;
      demoCount := None;
      jwt := None;
    }
  }
}
