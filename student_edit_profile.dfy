/**
 * The older profile page (src/pages/Student/EditProfile.tsx), which talks
 * to a REST endpoint: the profile is one record replaced through spreads,
 * so every handler here is a function from the old record to the new one.
 */
module StudentEditProfile {
  import opened Common
  import Interests

  /** The page's `profile` record. */
  datatype Profile = Profile(fullname: string, intereses: seq<string>, careerInterest: string)

  /** The record fields a text or select input of the page can name. */
  datatype Field = Fullname | CareerInterest

  /** The endpoint's profile reply, each field possibly absent. */
  datatype Loaded = Loaded(fullname: Option<string>, firstName: Option<string>, intereses: Option<seq<string>>,
                           careerInterest: Option<string>)

  /** The record built from the loaded reply: the first truthy name, and empty defaults. */
  function FromLoaded(d: Loaded): (p: Profile)
    ensures Truthy(d.fullname) ==> p.fullname == d.fullname.value
    ensures !Truthy(d.fullname) ==> p.fullname == OrElse(d.firstName, "")
    ensures d.intereses.None? ==> p.intereses == []
    ensures d.intereses.Some? ==> p.intereses == d.intereses.value
    ensures p.careerInterest == OrElse(d.careerInterest, "")
  {
    Profile(OrElse(d.fullname, OrElse(d.firstName, "")),
            if d.intereses.Some? then d.intereses.value else [],
            OrElse(d.careerInterest, ""))
  }

  /** `handleChange(e)`: only the field the input names takes the new value. */
  function HandleChange(p: Profile, name: Field, value: string): (q: Profile)
    ensures name == Fullname ==> q == p.(fullname := value)
    ensures name == CareerInterest ==> q == p.(careerInterest := value)
    ensures q.intereses == p.intereses
  {
    match name
    case Fullname => p.(fullname := value)
    case CareerInterest => p.(careerInterest := value)
  }

  /** `toggleInterest(interest)`: the interest list is toggled and nothing else changes. */
  function ToggleInterest(p: Profile, interest: string): (q: Profile)
    ensures q.fullname == p.fullname && q.careerInterest == p.careerInterest
    ensures q.intereses == Interests.Toggle(p.intereses, interest)
    ensures interest in q.intereses <==> interest !in p.intereses
  {
    p.(intereses := Interests.Toggle(p.intereses, interest))
  }

  /** The JSON body of the `PUT`. */
  datatype SubmitBody = SubmitBody(fullname: string, intereses: seq<string>, careerInterest: string)

  /** The body carries the whole record and nothing else: the record can be rebuilt from it. */
  function Body(p: Profile): (b: SubmitBody)
    ensures Profile(b.fullname, b.intereses, b.careerInterest) == p
  {
    SubmitBody(p.fullname, p.intereses, p.careerInterest)
  }

  /** How the `PUT` settled: a reply with an optional `message`, or a rejection. */
  datatype SubmitReply = Replied(message: Option<string>) | Rejected

  /** The alert `handleSubmit` shows. */
  function SubmitAlert(reply: SubmitReply): (m: string)
    ensures m != ""
    ensures reply.Rejected? ==> m == "Error al actualizar el perfil"
    ensures reply.Replied? && Truthy(reply.message) ==> m == reply.message.value
    ensures reply.Replied? && !Truthy(reply.message) ==> m == "Perfil actualizado correctamente"
  {
    match reply
    case Replied(message) => OrElse(message, "Perfil actualizado correctamente")
    case Rejected => "Error al actualizar el perfil"
  }
}
