/** The pet registration form of views/PetsView.tsx. The weight field goes
    through `parseFloat`, which is not modelled: its outcome arrives as the
    parameter `weight`, `None` standing for NaN. */
module PetsView {
  import opened Types
  import Text
  import Store

  const NewPetPhoto := "https://images.unsplash.com/photo-1543466835-00a7907e9de1?auto=format&fit=crop&q=80&w=400"
  const DefaultOwner := "c1"

  /** `formData`, every field as typed. */
  datatype Form = Form(name: string, species: string, breed: string, age: string, weight: string)

  const EmptyForm := Form("", "Dog", "", "", "")

  /** The pet a filled form describes: `parseInt(age) || 0` and `parseFloat(weight) || 0`. */
  function FormPet(form: Form, weight: Option<real>): (d: PetDraft)
    ensures d.ownerId == DefaultOwner
    ensures d.name == form.name && d.species == form.species && d.breed == form.breed
    ensures d.age == Text.ParseIntOrZero(form.age)
    ensures weight.None? ==> d.weight == 0.0
    ensures weight.Some? ==> d.weight == weight.value
    ensures d.lastVisit.None?
  {
    PetDraft(DefaultOwner, form.name, form.species, form.breed, Text.ParseIntOrZero(form.age),
             weight.GetOr(0.0), NewPetPhoto, None)
  }

  /** `handleSubmit`: nothing unless both name and breed are filled in;
      otherwise one pet more and the form back to its empty state. */
  function Submit(st: Store.State, form: Form, weight: Option<real>, now: nat): (r: (Store.State, Form))
    ensures form.name == "" || form.breed == "" ==> r == (st, form)
    ensures form.name != "" && form.breed != "" ==>
              && |r.0.pets| == |st.pets| + 1
              && r.0.pets[..|st.pets|] == st.pets
              && r.0.pets[|st.pets|].Draft() == FormPet(form, weight)
              && r.0.appointments == st.appointments && r.0.user == st.user
              && r.1 == EmptyForm
  {
    if form.name == "" || form.breed == "" then (st, form)
    else (Store.AddPet(st, FormPet(form, weight), now), EmptyForm)
  }

  /** The age is whatever `parseInt` reads, negative numbers included; text
      without digits gives 0. */
  lemma AgeIsParsed(form: Form, weight: Option<real>, n: int)
    ensures FormPet(form.(age := Text.IntText(n)), weight).age == n
    ensures Text.IsBlank(form.age) ==> FormPet(form, weight).age == 0
  {
    Text.ParseIntText(n);
    if Text.IsBlank(form.age) {
      Text.ParseIntBlank(form.age);
    }
  }
}
