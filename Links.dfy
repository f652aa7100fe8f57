/** The stored short-link record. Optional properties are `Option`s: `None`
    is a property that is absent (`undefined`) on the JavaScript object. */
module Links {
  import opened Wrappers

  /** A property value of a kind the link schema does not describe. */
  datatype Value = Str(s: string) | Num(n: int) | Bool(b: bool)

  datatype Link = Link(
    id: string,
    url: string,
    slug: string,
    createdAt: int,
    updatedAt: int,
    comment: Option<string>,
    title: Option<string>,
    description: Option<string>,
    image: Option<string>,
    apple: Option<string>,
    google: Option<string>,
    cloaking: Option<bool>,
    redirectWithQuery: Option<bool>,
    password: Option<string>,
    expiration: Option<int>,
    unsafe: Option<bool>,
    /** Other properties a stored record may carry; a record parsed from a
        request body has none of them, because the schema strips unknown keys. */
    extra: map<string, Value>)

  /** The optional properties, in the order the edit handler lists them. */
  datatype OptField =
    | Comment | Title | Description | Image | Apple | Google
    | Cloaking | RedirectWithQuery | Password | Expiration | Unsafe

  const OptionalFields: seq<OptField> :=
    [Comment, Title, Description, Image, Apple, Google,
     Cloaking, RedirectWithQuery, Password, Expiration, Unsafe]

  lemma OptionalFieldsListsEveryField(f: OptField)
    ensures f in OptionalFields
  {
  }

  /** JavaScript truthiness of an optional string: present and non-empty. */
  predicate Truthy(o: Option<string>) {
    o.Some? && o.value != ""
  }

  /** JavaScript truthiness of an optional boolean. */
  predicate IsTrue(o: Option<bool>) {
    o == Some(true)
  }

  function StrValue(o: Option<string>): Option<Value> {
    match o
    case Some(s) => Some(Str(s))
    case None => None
  }

  function BoolValue(o: Option<bool>): Option<Value> {
    match o
    case Some(b) => Some(Bool(b))
    case None => None
  }

  /** `link[field]`, with `None` for `undefined`. */
  function Get(l: Link, f: OptField): Option<Value> {
    match f
    case Comment => StrValue(l.comment)
    case Title => StrValue(l.title)
    case Description => StrValue(l.description)
    case Image => StrValue(l.image)
    case Apple => StrValue(l.apple)
    case Google => StrValue(l.google)
    case Cloaking => BoolValue(l.cloaking)
    case RedirectWithQuery => BoolValue(l.redirectWithQuery)
    case Password => StrValue(l.password)
    case Expiration => if l.expiration.Some? then Some(Num(l.expiration.value)) else None
    case Unsafe => BoolValue(l.unsafe)
  }

  /** `delete link[field]`. */
  function Without(l: Link, f: OptField): (r: Link)
    ensures Get(r, f) == None
    ensures forall g :: g != f ==> Get(r, g) == Get(l, g)
    ensures r.id == l.id && r.url == l.url && r.slug == l.slug
    ensures r.createdAt == l.createdAt && r.updatedAt == l.updatedAt && r.extra == l.extra
  {
    match f
    case Comment => l.(comment := None)
    case Title => l.(title := None)
    case Description => l.(description := None)
    case Image => l.(image := None)
    case Apple => l.(apple := None)
    case Google => l.(google := None)
    case Cloaking => l.(cloaking := None)
    case RedirectWithQuery => l.(redirectWithQuery := None)
    case Password => l.(password := None)
    case Expiration => l.(expiration := None)
    case Unsafe => l.(unsafe := None)
  }

  /** Two records agree on every optional property. */
  predicate SameOptionals(a: Link, b: Link) {
    forall f :: Get(a, f) == Get(b, f)
  }

  /** Records that agree on the required properties and on every optional one are equal. */
  lemma OptionalsDetermineLink(a: Link, b: Link)
    requires a.id == b.id && a.url == b.url && a.slug == b.slug
    requires a.createdAt == b.createdAt && a.updatedAt == b.updatedAt && a.extra == b.extra
    requires SameOptionals(a, b)
    ensures a == b
  {
    assert Get(a, Comment) == Get(b, Comment);
    assert Get(a, Title) == Get(b, Title);
    assert Get(a, Description) == Get(b, Description);
    assert Get(a, Image) == Get(b, Image);
    assert Get(a, Apple) == Get(b, Apple);
    assert Get(a, Google) == Get(b, Google);
    assert Get(a, Cloaking) == Get(b, Cloaking);
    assert Get(a, RedirectWithQuery) == Get(b, RedirectWithQuery);
    assert Get(a, Password) == Get(b, Password);
    assert Get(a, Expiration) == Get(b, Expiration);
    assert Get(a, Unsafe) == Get(b, Unsafe);
  }
}
