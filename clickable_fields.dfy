/** ClickableFields: the contact-field helpers of the map page, which turn a
  * phone, e-mail or website field into something that calls, mails or
  * opens it. A page element is a small object; enhancing it marks it, then
  * either wraps an input with an icon button or makes a display element
  * clickable. What the user answers to `confirm` is an input. */
module ClickableFields {
  import opened Basics
  import opened Text

  datatype Kind = Phone | Email | Website

  /** What a click finally does. */
  datatype Action = Call(telNumber: string) | Mail(address: string) | Visit(url: string)

  /** What a click comes to: nothing, or a confirmation question and, when
    * the user agrees, the action. */
  datatype Click = Ignored | Asked(question: string, taken: Option<Action>)

  /** The click handler an enhancement installs: an icon button beside an
    * input, which reads the input when clicked, or a handler on a display
    * element holding the text the element showed when it was enhanced. */
  datatype Handler = IconButton(kind: Kind) | DisplayClick(kind: Kind, captured: string)

  // ---------------------------------------------------------------------
  // The values a click acts on

  predicate Dialable(c: char) { IsDigit(c) || c == '+' }

  /** `value.replace(/[^\d+]/g, '')`: the digits and plus signs, in order. */
  function CleanNumber(value: string): (r: string)
    ensures |r| <= |value|
    ensures forall k :: 0 <= k < |r| ==> Dialable(r[k])
  {
    FilterChars(value, Dialable)
  }

  /** Cleaning keeps every digit and plus sign, as often as it occurs, drops
    * every other character, leaves a clean number alone, and so cleaning
    * twice is cleaning once. */
  lemma {:induction false} CleanNumberCounts(value: string, c: char)
    ensures Count(CleanNumber(value), c) == (if Dialable(c) then Count(value, c) else 0)
    decreases |value|
  {
    if value != [] {
      CleanNumberCounts(value[1..], c);
      assert CleanNumber(value) == (if Dialable(value[0]) then [value[0]] else []) + CleanNumber(value[1..]);
      CountConcat(if Dialable(value[0]) then [value[0]] else [], CleanNumber(value[1..]), c);
    }
  }

  lemma CleanNumberIdempotent(value: string)
    ensures (forall k :: 0 <= k < |value| ==> Dialable(value[k])) <==> CleanNumber(value) == value
    ensures CleanNumber(CleanNumber(value)) == CleanNumber(value)
  {
    if forall k :: 0 <= k < |value| ==> Dialable(value[k]) {
      FilterCharsAll(value, Dialable);
    }
    FilterCharsAll(CleanNumber(value), Dialable);
  }

  predicate HasScheme(url: string) { "http://" <= url || "https://" <= url }

  /** The website click's URL: the value itself when it starts with
    * 'http://' or 'https://', else the value behind 'https://'. */
  function WebsiteUrl(value: string): (url: string)
    ensures HasScheme(url)
    ensures HasScheme(value) ==> url == value
    ensures !HasScheme(value) ==> url == "https://" + value
  {
    if !HasScheme(value) then "https://" + value else value
  }

  /** Normalising a URL twice is normalising it once. */
  lemma WebsiteUrlIdempotent(value: string)
    ensures WebsiteUrl(WebsiteUrl(value)) == WebsiteUrl(value)
    ensures value <= WebsiteUrl(value) || WebsiteUrl(value) == "https://" + value
  {}

  /** What the click does once the user has agreed. */
  function ActionFor(kind: Kind, value: string): (a: Action)
    ensures kind == Phone <==> a.Call?
    ensures kind == Email <==> a.Mail?
    ensures kind == Website <==> a.Visit?
  {
    match kind
    case Phone => Call(CleanNumber(value))
    case Email => Mail(value)
    case Website => Visit(WebsiteUrl(value))
  }

  /** The confirmation question. */
  function Question(kind: Kind, value: string): string {
    match kind
    case Phone => "Call " + value + "?"
    case Email => "Send email to " + value + "?"
    case Website => "Navigate to " + value + "?"
  }

  /** Asking, then acting only when the user agrees. */
  function Ask(kind: Kind, value: string, confirmed: bool): (c: Click)
    ensures c.Asked? && c.question == Question(kind, value)
    ensures c.taken.Some? <==> confirmed
  {
    Asked(Question(kind, value), if confirmed then Some(ActionFor(kind, value)) else None)
  }

  /** The callback each kind hands to the icon button, given the input's
    * value: an e-mail without '@' and an empty website are ignored. */
  function InputCallback(kind: Kind, value: string, confirmed: bool): (c: Click)
    ensures c.Ignored? <==> (kind == Email && '@' !in value) || (kind == Website && value == [])
  {
    match kind
    case Phone => Ask(Phone, value, confirmed)
    case Email => if '@' !in value then Ignored else Ask(Email, value, confirmed)
    case Website => if value == [] then Ignored else Ask(Website, value, confirmed)
  }

  /** A click on the installed handler; `inputValue` is what the input holds
    * at the time of the click. The icon button does nothing while the input
    * holds only white space. */
  function OnClick(h: Handler, inputValue: string, confirmed: bool): (c: Click)
    ensures h.IconButton? && Trim(inputValue) == [] ==> c.Ignored?
    ensures h.DisplayClick? ==> c == Ask(h.kind, h.captured, confirmed)
    ensures c.Asked? && c.taken.Some? ==> confirmed
  {
    match h
    case IconButton(kind) => if Trim(inputValue) == [] then Ignored else InputCallback(kind, inputValue, confirmed)
    case DisplayClick(kind, captured) => Ask(kind, captured, confirmed)
  }

  /** Only a blank input is ignored by the phone icon: any other value is
    * offered for a call. */
  lemma PhoneIconIgnoresExactlyBlank(inputValue: string, confirmed: bool)
    ensures OnClick(IconButton(Phone), inputValue, confirmed).Ignored? <==>
      forall k :: 0 <= k < |inputValue| ==> IsSpace(inputValue[k])
  {
    TrimEmptyIff(inputValue);
  }

  /** An e-mail click, wherever it comes from, only ever mails an address
    * holding '@'. */
  lemma MailHasAt(h: Handler, inputValue: string, confirmed: bool)
    requires h.DisplayClick? ==> '@' in h.captured
    requires h.kind == Email
    ensures var c := OnClick(h, inputValue, confirmed);
      c.Asked? && c.taken.Some? ==> c.taken.value.Mail? && '@' in c.taken.value.address
  {}

  /** A website click, wherever it comes from, opens a URL with a scheme. */
  lemma VisitHasScheme(h: Handler, inputValue: string, confirmed: bool)
    ensures var c := OnClick(h, inputValue, confirmed);
      c.Asked? && c.taken.Some? && c.taken.value.Visit? ==> HasScheme(c.taken.value.url)
  {}

  // ---------------------------------------------------------------------
  // Enhancing an element

  /** What a display element's `title` becomes. */
  function Title(kind: Kind): string {
    match kind
    case Phone => "Click to call"
    case Email => "Click to send email"
    case Website => "Click to visit website"
  }

  /** A page element: whether it carries the 'clickable-enhanced' class,
    * whether it is an INPUT, its text content and value (empty when
    * absent), its title and the click handler installed on it. */
  class Element {
    var enhanced: bool
    var isInput: bool
    var textContent: string
    var value: string
    var title: string
    var handler: Option<Handler>

    constructor(isInput: bool, textContent: string, value: string)
      ensures !enhanced && this.isInput == isInput && this.textContent == textContent && this.value == value
      ensures title == [] && handler.None?
    {
      enhanced := false;
      this.isInput := isInput;
      this.textContent := textContent;
      this.value := value;
      title := [];
      handler := None;
    }

    /** `element.textContent || element.value`. */
    function Shown(): string
      reads this
    {
      if textContent != [] then textContent else value
    }
  }

  /** Whether a display element showing `shown` gets a click handler: it
    * must show something, and an e-mail must hold '@'. */
  predicate DisplayEnhanced(kind: Kind, shown: string) {
    shown != [] && (kind == Email ==> '@' in shown)
  }

  /** makePhoneClickable, makeEmailClickable and makeWebsiteClickable: no
    * element, or one already marked, is left alone; otherwise the element
    * is marked and an input gets an icon button, a display element showing
    * something its click handler and title. */
  method MakeClickable(element: Element?, kind: Kind)
    modifies element
    ensures element != null && old(element.enhanced) ==> unchanged(element)
    ensures element != null && !old(element.enhanced) ==>
      element.enhanced && element.isInput == old(element.isInput) &&
      element.textContent == old(element.textContent) && element.value == old(element.value) &&
      (element.isInput ==> element.handler == Some(IconButton(kind)) && element.title == old(element.title)) &&
      (!element.isInput && DisplayEnhanced(kind, old(element.Shown())) ==>
        element.handler == Some(DisplayClick(kind, old(element.Shown()))) && element.title == Title(kind)) &&
      (!element.isInput && !DisplayEnhanced(kind, old(element.Shown())) ==>
        element.handler == old(element.handler) && element.title == old(element.title))
  {
    if element == null || element.enhanced {
      return;
    }
    element.enhanced := true;
    if element.isInput {
      element.handler := Some(IconButton(kind));
    } else {
      var shown := element.Shown();
      if !DisplayEnhanced(kind, shown) {
        return;
      }
      element.title := Title(kind);
      element.handler := Some(DisplayClick(kind, shown));
    }
  }
}
