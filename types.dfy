/**
 * The records of the sales application (products, customers, invoices,
 * expenses, settings and users) and the closed string unions they use.
 * A field declared optional (`field?: T`) is an `Option<T>`; a field that may
 * hold `null` is a `Nullable<T>`, so that "absent" and "present but null"
 * stay apart. Money amounts and quantities are JavaScript numbers and are
 * modelled as `int`.
 */
module Types {
  import opened Wrappers

  /** A value that may be `null`. */
  datatype Nullable<+T> = Null | NonNull(value: T)

  /** `Invoice.status`: the union `'paid' | 'unpaid'`. */
  datatype Status = Paid | Unpaid

  /** `User.role`: the union `'admin' | 'employee'`. */
  datatype Role = Admin | Employee

  /** The interface languages, the union `'ar' | 'en'`. */
  datatype Language = Ar | En

  function StatusName(s: Status): string
  {
    match s
    case Paid => "paid"
    case Unpaid => "unpaid"
  }

  /** Reads a status literal; exactly the two literals of the union are accepted. */
  function ParseStatus(x: string): (r: Option<Status>)
    ensures r.Some? <==> x == "paid" || x == "unpaid"
    ensures r.Some? ==> StatusName(r.value) == x
    ensures forall s :: x == StatusName(s) ==> r == Some(s)
  {
    if x == "paid" then Some(Paid)
    else if x == "unpaid" then Some(Unpaid)
    else None
  }

  function RoleName(r: Role): string
  {
    match r
    case Admin => "admin"
    case Employee => "employee"
  }

  /** Reads a role literal; exactly `'admin'` and `'employee'` are accepted. */
  function ParseRole(x: string): (r: Option<Role>)
    ensures r.Some? <==> x == "admin" || x == "employee"
    ensures r.Some? ==> RoleName(r.value) == x
    ensures forall role :: x == RoleName(role) ==> r == Some(role)
  {
    if x == "admin" then Some(Admin)
    else if x == "employee" then Some(Employee)
    else None
  }

  function LanguageName(l: Language): string
  {
    match l
    case Ar => "ar"
    case En => "en"
  }

  /** Reads a language code; exactly `'ar'` and `'en'` are accepted. */
  function ParseLanguage(x: string): (r: Option<Language>)
    ensures r.Some? <==> x == "ar" || x == "en"
    ensures r.Some? ==> LanguageName(r.value) == x
    ensures forall l :: x == LanguageName(l) ==> r == Some(l)
  {
    if x == "ar" then Some(Ar)
    else if x == "en" then Some(En)
    else None
  }

  datatype Product = Product(
    id: string,
    name: string,
    code: Option<string>,
    price: int,
    stock: int)

  datatype Customer = Customer(
    id: string,
    name: string,
    phone: Option<string>,
    address: Option<string>,
    notes: Option<string>)

  /**
   * One invoice line: a soft reference to the product (`productId`) next to
   * the name and unit price copied from it when the line was made.
   */
  datatype InvoiceItem = InvoiceItem(
    productId: string,
    productName: string,
    price: int,
    quantity: int,
    subtotal: int)

  /**
   * An invoice: the customer is referenced by id and its name is copied
   * (`customerName`); returned goods are recorded as lines of the same shape
   * as the sold ones, in an optional list (`returns`, here `returned`, since
   * `returns` is a Dafny keyword).
   */
  datatype Invoice = Invoice(
    id: string,
    invoiceNumber: int,
    customerId: string,
    customerName: string,
    date: string,
    items: seq<InvoiceItem>,
    subtotal: int,
    discount: int,
    total: int,
    status: Status,
    returned: Option<seq<InvoiceItem>>,
    createdBy: Option<string>)

  datatype Expense = Expense(
    id: string,
    date: string,
    itemName: string,
    quantity: int,
    pricePerItem: int,
    total: int)

  /**
   * Company settings: name, currency, logo (a string or null) and bank
   * balance are required; phone, e-mail, Instagram account and Instagram QR
   * code (a string or null) may be absent.
   */
  datatype Settings = Settings(
    companyName: string,
    currency: string,
    logo: Nullable<string>,
    companyPhone: Option<string>,
    companyEmail: Option<string>,
    instagramAccount: Option<string>,
    instagramQR: Option<Nullable<string>>,
    bankAccountBalance: int)

  datatype User = User(
    id: string,
    name: string,
    username: string,
    email: Option<string>,
    password: string,
    role: Role,
    language: Option<Language>)
}
