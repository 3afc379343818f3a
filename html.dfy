/**
 * The markup builders of the utilities module: the navigation list, the vehicle grid
 * of a classification page, the classification `<select>`, and the field fallbacks of
 * the vehicle detail block.
 *
 * The builders append one fragment per row inside a loop, as the source does with
 * `forEach` and `+=`; each is specified by a function over the rows. For the
 * navigation and the select list a decoder is given and shown to read the rows back,
 * so the markup holds exactly one entry per row, in input order, carrying that row's
 * identifier and name.
 */
module Html {
  import opened Wrappers
  import opened Text
  import opened Js

  /** A row of the classification table. */
  datatype ClassificationRow = ClassificationRow(classification_id: int, classification_name: string)

  /** A row of the inventory-by-classification query (inventory joined with classification).
      The price arrives as the text of a numeric column. */
  datatype InventoryRow = InventoryRow(
    inv_id: int, inv_make: string, inv_model: string, inv_thumbnail: string,
    inv_price: string, classification_name: string)

  /** What the builders receive: a list of rows, or some other JavaScript value. */
  datatype ListArgument<T> = Rows(rows: seq<T>) | NotAnArray(value: Value)

  /** The error `data.forEach(...)` throws when `data` is not an array. */
  function ForEachError(data: Value): (e: JsError)
    ensures e.name == "TypeError"
  {
    if data == Undefined then TypeError("Cannot read properties of undefined (reading 'forEach')")
    else if data == Null then TypeError("Cannot read properties of null (reading 'forEach')")
    else TypeError("data.forEach is not a function")
  }

  // ----- concatenating one fragment per row -----

  /** The fragments of `rows`, in order, one after the other. */
  function Join<T>(fragment: T -> string, rows: seq<T>): string
  {
    if rows == [] then "" else fragment(rows[0]) + Join(fragment, rows[1..])
  }

  /** Appending a row appends its fragment: what each loop iteration does. */
  lemma {:induction false} JoinSnoc<T>(fragment: T -> string, rows: seq<T>, row: T)
    ensures Join(fragment, rows + [row]) == Join(fragment, rows) + fragment(row)
  {
    if rows == [] {
      assert rows + [row] == [row];
    } else {
      assert (rows + [row])[1..] == rows[1..] + [row];
      JoinSnoc(fragment, rows[1..], row);
    }
  }

  /** One loop step: appending row `i`'s fragment to the fragments of the rows before it. */
  lemma SnocEntry<T>(prefix: string, fragment: T -> string, rows: seq<T>, i: nat, entry: string)
    requires i < |rows| && fragment(rows[i]) == entry
    ensures prefix + Join(fragment, rows[..i]) + entry == prefix + Join(fragment, rows[..i + 1])
  {
    JoinSnoc(fragment, rows[..i], rows[i]);
    assert rows[..i + 1] == rows[..i] + [rows[i]];
  }

  /** Regrouping a concatenation: stated once over variables, it keeps the literal
      fragments of the builders below out of the associativity reasoning. */
  lemma Assoc(a: string, b: string, c: string)
    ensures a + b + c == a + (b + c)
  {
  }

  lemma AppendThree(x: string, p0: string, p1: string, p2: string)
    ensures x + p0 + p1 + p2 == x + (p0 + p1 + p2)
  {
  }

  lemma AppendTen(x: string, p0: string, p1: string, p2: string, p3: string, p4: string,
                  p5: string, p6: string, p7: string, p8: string, p9: string)
    ensures x + p0 + p1 + p2 + p3 + p4 + p5 + p6 + p7 + p8 + p9
         == x + (p0 + p1 + p2 + p3 + p4 + p5 + p6 + p7 + p8 + p9)
  {
  }

  /** The fragment of the row at position `k` sits between the fragments of the rows
      before it and those after it. */
  lemma {:induction false} JoinAt<T>(fragment: T -> string, rows: seq<T>, k: nat)
    requires k < |rows|
    ensures Join(fragment, rows) == Join(fragment, rows[..k]) + fragment(rows[k]) + Join(fragment, rows[k + 1..])
  {
    if k > 0 {
      JoinAt(fragment, rows[1..], k - 1);
      assert rows[1..][..k - 1] == rows[1..k];
      assert rows[1..][k..] == rows[k + 1..];
      assert rows[..k][1..] == rows[1..k];
    }
  }

  /** Reads fragments with `item` until exactly `terminator` remains. */
  function ParseList<T>(item: string -> Option<(T, string)>, terminator: string, s: string): Option<seq<T>>
    requires forall t :: item(t).Some? ==> |item(t).value.1| < |t|
    decreases |s|
  {
    if s == terminator then Some([])
    else match item(s)
      case None => None
      case Some(parsed) =>
        match ParseList(item, terminator, parsed.1)
        case None => None
        case Some(more) => Some([parsed.0] + more)
  }

  /** Reading back a concatenation of fragments: when `item` recognises each rendered
      fragment and no fragment is mistaken for the terminator, the rows come back in order. */
  lemma {:induction false} ParseListJoin<T>(item: string -> Option<(T, string)>, fragment: T -> string,
                                            terminator: string, rows: seq<T>)
    requires forall t :: item(t).Some? ==> |item(t).value.1| < |t|
    requires forall x, rest :: x in rows ==> item(fragment(x) + rest) == Some((x, rest))
    requires forall x, rest :: x in rows ==> fragment(x) + rest != terminator
    ensures ParseList(item, terminator, Join(fragment, rows) + terminator) == Some(rows)
  {
    if rows == [] {
      assert Join(fragment, rows) + terminator == terminator;
    } else {
      var rest := Join(fragment, rows[1..]) + terminator;
      assert Join(fragment, rows) + terminator == fragment(rows[0]) + rest;
      assert rows[0] in rows;
      assert item(fragment(rows[0]) + rest) == Some((rows[0], rest));
      assert fragment(rows[0]) + rest != terminator;
      ParseListJoin(item, fragment, terminator, rows[1..]);
      assert [rows[0]] + rows[1..] == rows;
    }
  }

  // ----- small decoders the list decoders are built from -----

  /** Consumes the literal `p` at the front of `s`. */
  function Skip(s: string, p: string): (r: Option<string>)
    ensures r.Some? ==> |r.value| == |s| - |p|
  {
    if StartsWith(s, p) then Some(s[|p|..]) else None
  }

  lemma SkipConcat(p: string, x: string)
    ensures Skip(p + x, p) == Some(x)
  {
    StartsWithConcat(p, x);
  }

  /** An integer in the validator's syntax, followed by a double quote. */
  function ParseId(s: string): (r: Option<(int, string)>)
    ensures r.Some? ==> |r.value.1| <= |s|
  {
    var (text, rest) := SplitAt(s, '"');
    match ParseInteger(text)
    case None => None
    case Some(n) => Some((n, rest))
  }

  lemma ParseIdOf(n: int, rest: string)
    requires rest != [] && rest[0] == '"'
    ensures ParseId(IntToString(n) + rest) == Some((n, rest))
  {
    IntToStringText(n);
    SplitAtFirst(IntToString(n), rest, '"');
    IntToStringRoundTrip(n);
  }

  /** Text up to a double quote that ends with `suffix`: the text before the suffix. */
  function ParseQuotedWithSuffix(s: string, suffix: string): (r: Option<(string, string)>)
    ensures r.Some? ==> |r.value.1| <= |s|
  {
    var (text, rest) := SplitAt(s, '"');
    if EndsWith(text, suffix) then Some((text[..|text| - |suffix|], rest)) else None
  }

  lemma ParseQuotedWithSuffixOf(name: string, suffix: string, rest: string)
    requires '"' !in name && '"' !in suffix && rest != [] && rest[0] == '"'
    ensures ParseQuotedWithSuffix(name + (suffix + rest), suffix) == Some((name, rest))
  {
    assert name + (suffix + rest) == (name + suffix) + rest;
    SplitAtFirst(name + suffix, rest, '"');
    assert (name + suffix)[..|name|] == name;
  }

  // ----- the navigation list (getNav) -----

  const NavHome := "<li><a href=\"/\" title=\"Home page\">Home</a></li>"
  const NavManagement := "<li><a href=\"/inv\"" + " title=\"Manage the Inventory\">Management</a></li>"

  /** The link getNav appends for one classification: to its inventory page, titled
      and labelled with its name. */
  function NavLink(row: ClassificationRow): string
  {
    "<a href=\"/inv/type/" + (IntToString(row.classification_id)
    + ("\" title=\"See our inventory of " + (row.classification_name
    + (" vehicles\">" + (row.classification_name + "</a>")))))
  }

  /** One classification's entry. */
  function NavItem(row: ClassificationRow): string
  {
    "<li>" + NavLink(row) + "</li>"
  }

  const NavHead := "<ul>" + NavHome
  const NavTail := NavManagement + "</ul>"

  /** The navigation markup for the given classification rows: the home entry, one
      entry per row, then the management entry. */
  function Nav(rows: seq<ClassificationRow>): string
  {
    NavHead + Join(NavItem, rows) + NavTail
  }

  /** getNav, over the rows of the classification table. */
  method GetNav(rows: seq<ClassificationRow>) returns (list: string)
    ensures list == Nav(rows)
  {
    list := "<ul>";
    list := list + NavHome;
    ghost var head := list;
    for i := 0 to |rows|
      invariant list == head + Join(NavItem, rows[..i])
    {
      var row := rows[i];
      ghost var before := list;
      list := list + "<li>";
      list := list + NavLink(row);
      list := list + "</li>";
      AppendThree(before, "<li>", NavLink(row), "</li>");
      SnocEntry(head, NavItem, rows, i, NavItem(row));
    }
    assert rows[..|rows|] == rows;
    ghost var items := list;
    list := list + NavManagement;
    list := list + "</ul>";
    Assoc(items, NavManagement, "</ul>");
  }

  /** getNav applied to what it is actually given: anything but an array throws. */
  function NavOn(data: ListArgument<ClassificationRow>): (r: Result<string, JsError>)
    ensures data.Rows? ==> r == Ok(Nav(data.rows))
    ensures data.NotAnArray? ==> r.Err? && r.error.name == "TypeError"
  {
    match data
    case Rows(rows) => Ok(Nav(rows))
    case NotAnArray(v) => Err(ForEachError(v))
  }

  /** getNav is handed the whole query result (an object holding `rows`), not its row
      array, so as written it always throws; handed the rows, it builds the list. */
  lemma NavOfQueryResultThrows(result: map<string, Value>, rows: seq<ClassificationRow>)
    ensures NavOn(NotAnArray(Obj(result))) == Err(TypeError("data.forEach is not a function"))
    ensures NavOn(Rows(rows)) == Ok(Nav(rows))
  {
  }

  /** A name the markup can carry unambiguously: no double quote, no `<`. */
  predicate PlainName(name: string)
  {
    '"' !in name && '<' !in name
  }

  /** Reads one navigation entry off the front of `s`. */
  function ParseNavItem(s: string): (r: Option<(ClassificationRow, string)>)
    ensures r.Some? ==> |r.value.1| < |s|
  {
    match Skip(s, "<li><a href=\"/inv/type/")
    case None => None
    case Some(a) =>
      match ParseId(a)
      case None => None
      case Some((id, b)) =>
        match Skip(b, "\" title=\"See our inventory of ")
        case None => None
        case Some(c) =>
          match ParseQuotedWithSuffix(c, " vehicles")
          case None => None
          case Some((name, d)) =>
            match Skip(d, "\">")
            case None => None
            case Some(e) =>
              var (text, f) := SplitAt(e, '<');
              if text != name then None
              else
                match Skip(f, "</a></li>")
                case None => None
                case Some(rest) => Some((ClassificationRow(id, name), rest))
  }

  /** Reads the rows back from navigation markup. */
  function ParseNav(html: string): Option<seq<ClassificationRow>>
  {
    match Skip(html, NavHead)
    case None => None
    case Some(body) => ParseList(ParseNavItem, NavTail, body)
  }

  lemma NavItemShape(row: ClassificationRow, rest: string)
    ensures NavItem(row) + rest == "<li><a href=\"/inv/type/" + (IntToString(row.classification_id)
      + ("\" title=\"See our inventory of " + (row.classification_name + (" vehicles"
      + ("\">" + (row.classification_name + ("</a></li>" + rest)))))))
  {
  }

  lemma NavItemRoundTrip(row: ClassificationRow, rest: string)
    requires PlainName(row.classification_name)
    ensures ParseNavItem(NavItem(row) + rest) == Some((row, rest))
  {
    var name := row.classification_name;
    var f := "</a></li>" + rest;
    var e := name + f;
    var d := "\">" + e;
    var c := name + (" vehicles" + d);
    var b := "\" title=\"See our inventory of " + c;
    NavItemShape(row, rest);
    SkipConcat("<li><a href=\"/inv/type/", IntToString(row.classification_id) + b);
    ParseIdOf(row.classification_id, b);
    SkipConcat("\" title=\"See our inventory of ", c);
    ParseQuotedWithSuffixOf(name, " vehicles", d);
    SkipConcat("\">", e);
    SplitAtFirst(name, f, '<');
    SkipConcat("</a></li>", rest);
  }

  lemma NavItemNotTail(row: ClassificationRow, rest: string)
    ensures NavItem(row) + rest != NavTail
  {
    var p := "<li><a href=\"/inv/type/";
    NavItemShape(row, rest);
    var s := NavItem(row) + rest;
    assert s[..|p|] == p;
    assert s[17] == p[17];
    assert p[17] == '/';
    assert NavTail[17] == NavManagement[17] == '"';
  }

  lemma NavShape(rows: seq<ClassificationRow>)
    ensures Nav(rows) == NavHead + (Join(NavItem, rows) + NavTail)
  {
    Assoc(NavHead, Join(NavItem, rows), NavTail);
  }

  /** getNav's markup holds exactly the given rows, in order: reading it back yields them. */
  lemma NavRoundTrip(rows: seq<ClassificationRow>)
    requires forall r :: r in rows ==> PlainName(r.classification_name)
    ensures ParseNav(Nav(rows)) == Some(rows)
  {
    forall x, rest | x in rows ensures ParseNavItem(NavItem(x) + rest) == Some((x, rest)) {
      NavItemRoundTrip(x, rest);
    }
    forall x, rest | x in rows ensures NavItem(x) + rest != NavTail {
      NavItemNotTail(x, rest);
    }
    ParseListJoin(ParseNavItem, NavItem, NavTail, rows);
    NavShape(rows);
    SkipConcat(NavHead, Join(NavItem, rows) + NavTail);
  }

  // ----- the classification select list (buildClassificationList) -----

  const SelectOpen := "<select name=\"classification_id\" id=\"classification_id\" required>"
  const SelectClose := "</select>"

  /** The option buildClassificationList appends for one row: valued with its id,
      labelled with its name. */
  function OptionItem(row: ClassificationRow): string
  {
    "<option value=\"" + (IntToString(row.classification_id)
    + ("\">" + (row.classification_name + "</option>")))
  }

  /** The select markup for the given classification rows. */
  function Select(rows: seq<ClassificationRow>): string
  {
    SelectOpen + Join(OptionItem, rows) + SelectClose
  }

  /** buildClassificationList, over a list of classification rows. */
  method BuildClassificationList(rows: seq<ClassificationRow>) returns (list: string)
    ensures list == Select(rows)
  {
    list := SelectOpen;
    ghost var head := list;
    for i := 0 to |rows|
      invariant list == head + Join(OptionItem, rows[..i])
    {
      var row := rows[i];
      list := list + OptionItem(row);
      SnocEntry(head, OptionItem, rows, i, OptionItem(row));
    }
    list := list + SelectClose;
    assert rows[..|rows|] == rows;
  }

  /** buildClassificationList applied to what its callers pass: a `classification_id`
      (a string) or nothing. Only an array of rows gives markup; anything else throws. */
  function ClassificationListOn(data: ListArgument<ClassificationRow>): (r: Result<string, JsError>)
    ensures data.Rows? ==> r == Ok(Select(data.rows))
    ensures data.NotAnArray? ==> r.Err? && r.error.name == "TypeError"
  {
    match data
    case Rows(rows) => Ok(Select(rows))
    case NotAnArray(v) => Err(ForEachError(v))
  }

  /** Passing a request-body field, as the inventory handlers do, always throws. */
  lemma ClassificationListOfBodyFieldThrows(body: map<string, string>)
    ensures ClassificationListOn(NotAnArray(BodyValue(body, "classification_id"))).Err?
    ensures "classification_id" in body ==>
      ClassificationListOn(NotAnArray(BodyValue(body, "classification_id"))).error
        == TypeError("data.forEach is not a function")
    ensures "classification_id" !in body ==>
      ClassificationListOn(NotAnArray(BodyValue(body, "classification_id"))).error
        == TypeError("Cannot read properties of undefined (reading 'forEach')")
  {
  }

  /** Reads one option off the front of `s`. */
  function ParseOption(s: string): (r: Option<(ClassificationRow, string)>)
    ensures r.Some? ==> |r.value.1| < |s|
  {
    match Skip(s, "<option value=\"")
    case None => None
    case Some(a) =>
      match ParseId(a)
      case None => None
      case Some((id, b)) =>
        match Skip(b, "\">")
        case None => None
        case Some(c) =>
          var (name, e) := SplitAt(c, '<');
          match Skip(e, "</option>")
          case None => None
          case Some(rest) => Some((ClassificationRow(id, name), rest))
  }

  /** Reads the rows back from select markup. */
  function ParseSelect(html: string): Option<seq<ClassificationRow>>
  {
    match Skip(html, SelectOpen)
    case None => None
    case Some(body) => ParseList(ParseOption, SelectClose, body)
  }

  lemma OptionItemShape(row: ClassificationRow, rest: string)
    ensures OptionItem(row) + rest == "<option value=\"" + (IntToString(row.classification_id)
      + ("\">" + (row.classification_name + ("</option>" + rest))))
  {
  }

  lemma OptionRoundTrip(row: ClassificationRow, rest: string)
    requires '<' !in row.classification_name
    ensures ParseOption(OptionItem(row) + rest) == Some((row, rest))
  {
    var name := row.classification_name;
    var e := "</option>" + rest;
    var c := name + e;
    var b := "\">" + c;
    OptionItemShape(row, rest);
    SkipConcat("<option value=\"", IntToString(row.classification_id) + b);
    ParseIdOf(row.classification_id, b);
    SkipConcat("\">", c);
    SplitAtFirst(name, e, '<');
    SkipConcat("</option>", rest);
  }

  lemma OptionItemNotClose(row: ClassificationRow, rest: string)
    ensures OptionItem(row) + rest != SelectClose
  {
    OptionItemShape(row, rest);
    assert (OptionItem(row) + rest)[1] == 'o';
  }

  /** The select holds one option per row, in input order, whose value is the row's id
      and whose text is its name: reading it back yields the rows. */
  lemma SelectRoundTrip(rows: seq<ClassificationRow>)
    requires forall r :: r in rows ==> '<' !in r.classification_name
    ensures ParseSelect(Select(rows)) == Some(rows)
  {
    forall x, rest | x in rows ensures ParseOption(OptionItem(x) + rest) == Some((x, rest)) {
      OptionRoundTrip(x, rest);
    }
    forall x, rest | x in rows ensures OptionItem(x) + rest != SelectClose {
      OptionItemNotClose(x, rest);
    }
    ParseListJoin(ParseOption, OptionItem, SelectClose, rows);
    assert Select(rows) == SelectOpen + (Join(OptionItem, rows) + SelectClose);
    SkipConcat(SelectOpen, Join(OptionItem, rows) + SelectClose);
  }

  // ----- the classification grid (buildClassificationGrid) -----

  const GridOpen := "<ul id=\"inv-display\">"
  const GridClose := "</ul>"
  const GridEmpty := "<p class=\"notice\">" + "Sorry, no matching vehicles could be found.</p>"
  const DetailLink := "<a href=\"../../inv/detail/"

  /** The thumbnail link of a grid entry, to the vehicle's detail page. */
  function GridThumbnail(v: InventoryRow): string
  {
    DetailLink + IntToString(v.inv_id) + "\" title=\"View " + v.inv_make + " " + v.inv_model
    + " details\"><img src=\"" + v.inv_thumbnail + "\" alt=\"Image of " + v.inv_make + " " + v.inv_model
    + " on CSE Motors\" /></a>"
  }

  /** The heading link of a grid entry, to the vehicle's detail page, showing make and model. */
  function GridHeading(v: InventoryRow): string
  {
    DetailLink + IntToString(v.inv_id) + "\" title=\"View " + v.inv_make + " " + v.inv_model
    + " details\">" + v.inv_make + " " + v.inv_model + "</a>"
  }

  /** The price of a grid entry; `formatNumber` is the `en-US` number formatting. */
  function GridPrice(v: InventoryRow, formatNumber: string -> string): string
  {
    "<span>$" + formatNumber(v.inv_price) + "</span>"
  }

  /** One vehicle's grid entry. */
  function GridItem(v: InventoryRow, formatNumber: string -> string): string
  {
    "<li>" + GridThumbnail(v) + "<div class=\"namePrice\">" + "<hr />" + "<h2>" + GridHeading(v)
    + "</h2>" + GridPrice(v, formatNumber) + "</div>" + "</li>"
  }

  /** The grid markup for the vehicles of one classification. */
  function Grid(rows: seq<InventoryRow>, formatNumber: string -> string): string
  {
    if |rows| > 0 then GridOpen + Join(v => GridItem(v, formatNumber), rows) + GridClose
    else GridEmpty
  }

  /** buildClassificationGrid. */
  method BuildClassificationGrid(rows: seq<InventoryRow>, formatNumber: string -> string) returns (grid: string)
    ensures grid == Grid(rows, formatNumber)
  {
    var item := v => GridItem(v, formatNumber);
    if |rows| > 0 {
      grid := GridOpen;
      ghost var head := grid;
      for i := 0 to |rows|
        invariant grid == head + Join(item, rows[..i])
      {
        var vehicle := rows[i];
        ghost var before := grid;
        grid := grid + "<li>";
        grid := grid + GridThumbnail(vehicle);
        grid := grid + "<div class=\"namePrice\">";
        grid := grid + "<hr />";
        grid := grid + "<h2>";
        grid := grid + GridHeading(vehicle);
        grid := grid + "</h2>";
        grid := grid + GridPrice(vehicle, formatNumber);
        grid := grid + "</div>";
        grid := grid + "</li>";
        AppendTen(before, "<li>", GridThumbnail(vehicle), "<div class=\"namePrice\">", "<hr />", "<h2>",
          GridHeading(vehicle), "</h2>", GridPrice(vehicle, formatNumber), "</div>", "</li>");
        SnocEntry(head, item, rows, i, GridItem(vehicle, formatNumber));
      }
      grid := grid + GridClose;
      assert rows[..|rows|] == rows;
    } else {
      grid := GridEmpty;
    }
  }

  lemma GridOpenIsNotNotice(rest: string)
    ensures GridOpen + rest != GridEmpty
  {
    assert (GridOpen + rest)[1] == 'u';
    assert GridEmpty[1] == 'p';
  }

  /** An empty result is exactly the notice paragraph; a non-empty one is the
      `inv-display` list and never the notice. */
  lemma GridEmptyIffNotice(rows: seq<InventoryRow>, formatNumber: string -> string)
    ensures Grid(rows, formatNumber) == GridEmpty <==> rows == []
    ensures rows != [] ==> (StartsWith(Grid(rows, formatNumber), GridOpen)
                            && EndsWith(Grid(rows, formatNumber), GridClose))
  {
    if rows != [] {
      var g := Grid(rows, formatNumber);
      var middle := Join(v => GridItem(v, formatNumber), rows);
      Assoc(GridOpen, middle, GridClose);
      StartsWithConcat(GridOpen, middle + GridClose);
      EndsWithConcat(GridOpen + middle, GridClose);
      GridOpenIsNotNotice(middle + GridClose);
    }
  }

  lemma Assoc5(x: string, a: string, b: string, c: string, y: string)
    ensures x + (a + b + c) + y == x + a + b + c + y
  {
  }

  /** The `k`-th vehicle's entry sits after the entries of the vehicles before it and
      before those of the vehicles after it. */
  lemma GridEntryAt(rows: seq<InventoryRow>, formatNumber: string -> string, k: nat)
    requires k < |rows|
    ensures Grid(rows, formatNumber) ==
      GridOpen + Join(v => GridItem(v, formatNumber), rows[..k]) + GridItem(rows[k], formatNumber)
      + Join(v => GridItem(v, formatNumber), rows[k + 1..]) + GridClose
  {
    var item := v => GridItem(v, formatNumber);
    JoinAt(item, rows, k);
    Assoc5(GridOpen, Join(item, rows[..k]), item(rows[k]), Join(item, rows[k + 1..]), GridClose);
  }

  // ----- the vehicle detail block (wrapVehicleAsHTML) -----

  /** The values wrapVehicleAsHTML interpolates into its markup. */
  datatype VehicleDetail = VehicleDetail(
    image: string, altText: string, heading: string, subheading: string,
    mileage: string, color: string, description: string)

  /** wrapVehicleAsHTML's interpolated values; `formatCurrency` is the `en-US` USD
      currency formatting. Reading a field of a missing vehicle throws. */
  function WrapVehicle(vehicle: Value, formatCurrency: Value -> string): (r: Result<VehicleDetail, JsError>)
    ensures r.Err? <==> vehicle == Undefined || vehicle == Null
    ensures r.Ok? ==> var f := k => Get(vehicle, k).value;
      && r.value.color == (if Truthy(f("inv_color")) then ToStr(f("inv_color")) else "N/A")
      && r.value.description == (if Truthy(f("inv_description")) then ToStr(f("inv_description"))
                                 else "No description available.")
      && r.value.subheading == ToStr(f("inv_year")) + " \U{2022} "
                               + formatCurrency(if Truthy(f("inv_price")) then f("inv_price") else Num(0))
      && r.value.mileage == ToStr(f("inv_miles"))
  {
    match Get(vehicle, "inv_price")
    case Err(e) => Err(e)
    case Ok(price) =>
      var f := k => Get(vehicle, k).value;
      var priceText := formatCurrency(Or(price, Num(0)));
      var title := ToStr(f("inv_year")) + " " + ToStr(f("inv_make")) + " " + ToStr(f("inv_model"));
      Ok(VehicleDetail(
        image := ToStr(f("inv_image")),
        altText := title,
        heading := ToStr(f("inv_make")) + " " + ToStr(f("inv_model")),
        subheading := ToStr(f("inv_year")) + " \U{2022} " + priceText,
        mileage := ToStr(f("inv_miles")),
        color := ToStr(Or(f("inv_color"), Str("N/A"))),
        description := ToStr(Or(f("inv_description"), Str("No description available.")))))
  }
}
