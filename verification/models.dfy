/**
 * The persisted entities of the inventory backend and the constraints the
 * schema puts on them. Money is integer cents (the columns are Numeric(10, 2)),
 * time is seconds on the UTC clock, and every row id is an int.
 */
module Models {
  import opened Results

  /** A fixed-point amount with two decimals, counted in cents. */
  type Cents = int

  /** A UTC instant, in seconds. */
  type Time = int

  /** A one-time code handed out at registration and the instant it stops being valid. */
  datatype PendingOtp = PendingOtp(code: string, expiresAt: Time)

  /**
   * A user account. Its id is its position in the user table plus one (an
   * autoincrement key over a table nobody deletes from). `password` holds the
   * salted hash, never the plaintext; `otp` is present while the account
   * awaits verification and cleared for good once verified.
   */
  datatype User = User(
    username: string,
    email: string,
    password: string,
    role: string,
    otp: Option<PendingOtp>)

  /** A business, owned by exactly one user. */
  datatype Business = Business(id: int, userId: int, name: string, category: Option<string>)

  /** An inventory row. Nothing in the schema keeps `quantity` non-negative. */
  datatype Item = Item(
    id: int,
    businessId: int,
    itemName: string,
    description: Option<string>,
    quantity: int,
    pricePerUnit: Cents)

  /**
   * A sale. `totalPrice` is what was charged and is independent of the
   * item's unit price. Nothing ties `businessId` to the business of the
   * referenced item, and `inventoryId` need not name an existing item.
   */
  datatype Sale = Sale(
    id: int,
    businessId: int,
    inventoryId: int,
    quantitySold: int,
    totalPrice: Cents,
    soldAt: Time)

  /** One persisted snapshot of a computed metric for a business. */
  datatype Insight = Insight(businessId: int, metric: string, value: Cents, recordedAt: Time)

  /**
   * The one-way password hashing library, seen from outside: `hash` salts and
   * hashes a plaintext, `check` tells whether a plaintext matches a stored hash.
   */
  datatype PasswordScheme = PasswordScheme(
    hash: (string, string) -> string,
    check: (string, string) -> bool)

  /** What the library promises: a password always checks against its own hash, whatever the salt. */
  ghost predicate Sound(ps: PasswordScheme) {
    forall password, salt :: ps.check(ps.hash(password, salt), password)
  }

  /** Replaces the stored hash with a fresh salted hash of `password`. */
  function SetPassword(ps: PasswordScheme, u: User, password: string, salt: string): (r: User)
    ensures Sound(ps) ==> CheckPassword(ps, r, password)
    ensures r.username == u.username && r.email == u.email && r.role == u.role && r.otp == u.otp
  {
    u.(password := ps.hash(password, salt))
  }

  /** Whether `password` matches the user's stored hash. */
  function CheckPassword(ps: PasswordScheme, u: User, password: string): (r: bool)
    ensures Sound(ps) && (exists salt :: u.password == ps.hash(password, salt)) ==> r
  {
    ps.check(u.password, password)
  }

  /** The unique constraint on the username column. */
  predicate UniqueUsernames(users: seq<User>) {
    forall i, j :: 0 <= i < j < |users| ==> users[i].username != users[j].username
  }

  /** The unique constraint on the email column. */
  predicate UniqueEmails(users: seq<User>) {
    forall i, j :: 0 <= i < j < |users| ==> users[i].email != users[j].email
  }

  /** Primary keys of the inventory table are distinct. */
  predicate UniqueItemIds(items: seq<Item>) {
    forall i, j :: 0 <= i < j < |items| ==> items[i].id != items[j].id
  }
}
