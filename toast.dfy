/**
 * The toast helpers: action messages with an intent, and their rendering
 * as toast messages whose variant follows from the intent.
 */
module Toast {
  import opened Wrappers

  const ErrorTitle := "오류 발생"
  const DefaultErrorFallback := "요청 처리 중 오류가 발생했습니다."
  const DefaultSuccessTitle := "처리가 완료되었습니다."

  datatype Intent = Success | Error | Info

  datatype Variant = Default | Destructive

  datatype ActionMessage = ActionMessage(intent: Intent, title: string, description: Option<string>)

  datatype ToastMessage = ToastMessage(title: string, description: Option<string>, variant: Option<Variant>)

  /**
   * A thrown value as `actionMessageFromError` inspects it: a falsy value
   * or a non-object, or an object, with its `message` property when it has
   * one (whether that is truthy, and what `String()` makes of it).
   */
  datatype Thrown = NotAnObject | ObjectValue(message: Option<Shown>)

  datatype Shown = Shown(truthy: bool, text: string)

  /** `intentToVariant`. */
  function VariantOf(i: Intent): (v: Variant)
    ensures v == Destructive <==> i == Error
  {
    match i
    case Success => Default
    case Error => Destructive
    case Info => Default
  }

  /** `createActionMessage`. */
  function CreateActionMessage(intent: Intent, title: string, description: Option<string>): (m: ActionMessage)
    ensures m.intent == intent && m.title == title && m.description == description
  {
    ActionMessage(intent, title, description)
  }

  /**
   * `actionMessageFromError`: an object with a `message` property shows
   * that message when it is truthy and the fallback otherwise; anything
   * else shows the fallback. `fallback` is `None` when not passed.
   */
  function ActionMessageFromError(error: Thrown, fallback: Option<string>): (m: ActionMessage)
    ensures m.intent == Error && m.title == ErrorTitle && m.description.Some?
    ensures var fb := fallback.GetOr(DefaultErrorFallback);
            m.description.value == if error.ObjectValue? && error.message.Some? && error.message.value.truthy
                                   then error.message.value.text else fb
  {
    var fb := fallback.GetOr(DefaultErrorFallback);
    match error
    case ObjectValue(Some(shown)) => CreateActionMessage(Error, ErrorTitle, Some(if shown.truthy then shown.text else fb))
    case _ => CreateActionMessage(Error, ErrorTitle, Some(fb))
  }

  /** `actionMessageFromSuccess`; `title` is `None` when not passed. */
  function ActionMessageFromSuccess(description: string, title: Option<string>): (m: ActionMessage)
    ensures m.intent == Success && m.description == Some(description)
    ensures m.title == if title.Some? then title.value else DefaultSuccessTitle
  {
    CreateActionMessage(Success, title.GetOr(DefaultSuccessTitle), Some(description))
  }

  /** `toToastMessage`. */
  function ToToastMessage(m: ActionMessage): (t: ToastMessage)
    ensures t.title == m.title && t.description == m.description
    ensures t.variant == Some(if m.intent == Error then Destructive else Default)
  {
    ToastMessage(m.title, m.description, Some(VariantOf(m.intent)))
  }

  /** Every error message renders as a destructive toast titled "오류 발생"; every success message as a default one. */
  lemma ErrorToastsAreDestructive(error: Thrown, fallback: Option<string>, description: string, title: Option<string>)
    ensures ToToastMessage(ActionMessageFromError(error, fallback)) ==
            ToastMessage(ErrorTitle, ActionMessageFromError(error, fallback).description, Some(Destructive))
    ensures ToToastMessage(ActionMessageFromSuccess(description, title)).variant == Some(Default)
  {
  }

  /** Without a fallback, an error lacking a usable message shows the default Korean text. */
  lemma DefaultFallbackUsed(error: Thrown)
    requires !(error.ObjectValue? && error.message.Some? && error.message.value.truthy)
    ensures ActionMessageFromError(error, None).description == Some(DefaultErrorFallback)
  {
  }
}
