/**
 * The phrase table `translations`: for each language code, the map from the
 * trimmed text an element shows to the text it shows in that language. The
 * source writes each language's map as one object literal in commented
 * sections. Here a section is the sequence of its `'key': 'text'`
 * declarations, a language's literal is its sections one after another, and
 * the map it denotes is `ObjectLiteral` of that sequence, in which a key
 * declared twice keeps its last declaration.
 */
module PhraseTable {
  import opened JsStrings
  import PageContent
  /** One `'key': 'text'` declaration of an object literal. */
  datatype Entry = Entry(key: string, text: string)

  type PhraseMap = map<string, string>

  /** Some declaration of `entries` has key `k`. */
  predicate Declares(entries: seq<Entry>, k: string) {
    exists i | 0 <= i < |entries| :: entries[i].key == k
  }

  /** No declaration after `i` has the key of declaration `i`. */
  predicate LastDeclaration(entries: seq<Entry>, i: nat)
    requires i < |entries|
  {
    forall j | i < j < |entries| :: entries[j].key != entries[i].key
  }

  /**
   * The object an object literal denotes: exactly the declared keys, each with
   * the text of its last declaration (`LastDeclarationWins`).
   */
  function ObjectLiteral(entries: seq<Entry>): (r: PhraseMap)
    ensures forall k :: k in r <==> Declares(entries, k)
    decreases |entries|
  {
    if entries == [] then map[]
    else
      var init := entries[..|entries| - 1];
      var last := entries[|entries| - 1];
      assert forall k :: Declares(entries, k) <==> Declares(init, k) || last.key == k by {
        forall k ensures Declares(entries, k) <==> Declares(init, k) || last.key == k {
          if Declares(entries, k) {
            var i :| 0 <= i < |entries| && entries[i].key == k;
            if i < |init| {
              assert init[i].key == k;
            }
          }
          if Declares(init, k) {
            var i :| 0 <= i < |init| && init[i].key == k;
            assert entries[i].key == k;
          }
        }
      }
      ObjectLiteral(init)[last.key := last.text]
  }

  /** The last declaration of a key gives its text in the object. */
  lemma {:induction false} LastDeclarationWins(entries: seq<Entry>, i: nat)
    requires i < |entries| && LastDeclaration(entries, i)
    ensures entries[i].key in ObjectLiteral(entries)
    ensures ObjectLiteral(entries)[entries[i].key] == entries[i].text
    decreases |entries|
  {
    var init := entries[..|entries| - 1];
    if i < |entries| - 1 {
      assert LastDeclaration(init, i);
      LastDeclarationWins(init, i);
      assert init[i] == entries[i];
    }
  }

  /** Every declared key has a last declaration. */
  lemma {:induction false} LastDeclarationOf(entries: seq<Entry>, k: string) returns (i: nat)
    requires Declares(entries, k)
    ensures i < |entries| && entries[i].key == k && LastDeclaration(entries, i)
    decreases |entries|
  {
    var n := |entries| - 1;
    if entries[n].key == k {
      i := n;
    } else {
      var init := entries[..n];
      assert Declares(init, k) by {
        var j :| 0 <= j < |entries| && entries[j].key == k;
        assert init[j].key == k;
      }
      i := LastDeclarationOf(init, k);
      assert entries[i] == init[i];
    }
  }

  /** Declarations of other keys, written after, leave the text of `k` as it was. */
  lemma UndeclaredSuffix(a: seq<Entry>, b: seq<Entry>, k: string)
    requires k in ObjectLiteral(a) && !Declares(b, k)
    ensures k in ObjectLiteral(a + b) && ObjectLiteral(a + b)[k] == ObjectLiteral(a)[k]
  {
    var i := LastDeclarationOf(a, k);
    LastDeclarationWins(a, i);
    assert (a + b)[i] == a[i];
    assert LastDeclaration(a + b, i) by {
      forall j | i < j < |a + b| ensures (a + b)[j].key != k {
        if j >= |a| {
          assert (a + b)[j] == b[j - |a|];
        } else {
          assert (a + b)[j] == a[j];
        }
      }
    }
    LastDeclarationWins(a + b, i);
  }

  /** Every declaration written the other way round. */
  function Swap(entries: seq<Entry>): (r: seq<Entry>)
    ensures |r| == |entries|
    ensures forall i | 0 <= i < |r| :: r[i].key == entries[i].text && r[i].text == entries[i].key
  {
    seq(|entries|, i requires 0 <= i < |entries| => Entry(entries[i].text, entries[i].key))
  }

  /** No key is declared twice. */
  predicate DistinctKeys(entries: seq<Entry>) {
    forall i, j | 0 <= i < j < |entries| :: entries[i].key != entries[j].key
  }

  /** Keys are distinct when every declaration is the last of its key. */
  lemma UniqueKeysDistinct(entries: seq<Entry>)
    requires forall i | 0 <= i < |entries| :: LastDeclaration(entries, i)
    ensures DistinctKeys(entries)
  {
    forall i, j | 0 <= i < j < |entries| ensures entries[i].key != entries[j].key {
      assert LastDeclaration(entries, i);
    }
  }

  /**
   * Two sections that mirror each other: the second declares the first's
   * pairs the other way round, in the same order, and neither declares a key
   * twice.
   */
  predicate Mirror(es: seq<Entry>, en: seq<Entry>) {
    en == Swap(es) && DistinctKeys(es) && DistinctKeys(en)
  }

  /** Each map sends the other's texts back to their keys. */
  predicate Inverse(a: PhraseMap, b: PhraseMap) {
    (forall k | k in a :: a[k] in b && b[a[k]] == k) &&
    (forall k | k in b :: b[k] in a && a[b[k]] == k)
  }

  /** Mirrored literals denote inverse maps: translating there and back gives the original text. */
  lemma MirrorIsInverse(es: seq<Entry>, en: seq<Entry>)
    requires Mirror(es, en)
    ensures Inverse(ObjectLiteral(es), ObjectLiteral(en))
  {
    var a := ObjectLiteral(es);
    var b := ObjectLiteral(en);
    forall k | k in a ensures a[k] in b && b[a[k]] == k {
      var i := LastDeclarationOf(es, k);
      LastDeclarationWins(es, i);
      LastDeclarationWins(en, i);
    }
    forall k | k in b ensures b[k] in a && a[b[k]] == k {
      var i := LastDeclarationOf(en, k);
      LastDeclarationWins(en, i);
      LastDeclarationWins(es, i);
    }
  }

  /** Every key that both `a` and `b` declare is in `shared`. */
  predicate SharedKeysWithin(a: seq<Entry>, b: seq<Entry>, shared: set<string>) {
    forall i, j | 0 <= i < |a| && 0 <= j < |b| && a[i].key == b[j].key :: a[i].key in shared
  }

  /** A key the later part declares gets the later part's text, whatever the earlier part declares. */
  lemma SuffixWins(a: seq<Entry>, b: seq<Entry>, k: string)
    requires k in ObjectLiteral(b)
    ensures k in ObjectLiteral(a + b) && ObjectLiteral(a + b)[k] == ObjectLiteral(b)[k]
  {
    var i := LastDeclarationOf(b, k);
    LastDeclarationWins(b, i);
    assert (a + b)[|a| + i] == b[i];
    assert LastDeclaration(a + b, |a| + i) by {
      forall j | |a| + i < j < |a + b| ensures (a + b)[j].key != k {
        assert (a + b)[j] == b[j - |a|];
      }
    }
    LastDeclarationWins(a + b, |a| + i);
  }

  /** The keys two parts share with a third are the keys their join shares with it. */
  lemma SharedLeft(a: seq<Entry>, b: seq<Entry>, c: seq<Entry>, shared: set<string>)
    requires SharedKeysWithin(a, c, shared) && SharedKeysWithin(b, c, shared)
    ensures SharedKeysWithin(a + b, c, shared)
  {
    forall i, j | 0 <= i < |a + b| && 0 <= j < |c| && (a + b)[i].key == c[j].key
      ensures (a + b)[i].key in shared
    {
      JoinedAt(a, b, i);
    }
  }

  /**
   * Joining `b`, which declares no key twice, after `a`: a declaration the
   * join overrides lies in `a`, and is overridden within `a` or declares a key
   * the two parts share.
   */
  lemma JoinOverrides(a: seq<Entry>, b: seq<Entry>, shared: set<string>)
    requires DistinctKeys(b) && SharedKeysWithin(a, b, shared)
    ensures forall i | 0 <= i < |a + b| && !LastDeclaration(a + b, i) ::
              i < |a| && (!LastDeclaration(a, i) || a[i].key in shared)
  {
    forall i | 0 <= i < |a + b| && !LastDeclaration(a + b, i)
      ensures i < |a| && (!LastDeclaration(a, i) || a[i].key in shared)
    {
      var j :| i < j < |a + b| && (a + b)[j].key == (a + b)[i].key;
      JoinedAt(a, b, i);
      JoinedAt(a, b, j);
    }
  }

  /** Declaration `i` of a join comes from the first part or from the second. */
  lemma JoinedAt(a: seq<Entry>, b: seq<Entry>, i: nat)
    requires i < |a + b|
    ensures i < |a| ==> (a + b)[i] == a[i]
    ensures i >= |a| ==> (a + b)[i] == b[i - |a|]
  {
  }

  /** Swapping a join swaps each part. */
  lemma SwapJoin(a: seq<Entry>, b: seq<Entry>)
    ensures Swap(a + b) == Swap(a) + Swap(b)
  {
  }

  /** Sections written one after another, as an object literal writes them. */
  function Join(sections: seq<seq<Entry>>): seq<Entry>
    decreases |sections|
  {
    if sections == [] then [] else Join(sections[..|sections| - 1]) + sections[|sections| - 1]
  }

  /** No section declares a key twice. */
  predicate SectionsDistinct(sections: seq<seq<Entry>>) {
    forall s | 0 <= s < |sections| :: DistinctKeys(sections[s])
  }

  /** Every key two different sections both declare is in `shared`. */
  predicate SectionsShare(sections: seq<seq<Entry>>, shared: set<string>) {
    forall s, t | 0 <= s < t < |sections| :: SharedKeysWithin(sections[s], sections[t], shared)
  }

  /** The keys each section shares with `c` bound the keys their join shares with it. */
  lemma {:induction false} JoinedShared(sections: seq<seq<Entry>>, c: seq<Entry>, shared: set<string>)
    requires forall s | 0 <= s < |sections| :: SharedKeysWithin(sections[s], c, shared)
    ensures SharedKeysWithin(Join(sections), c, shared)
    decreases |sections|
  {
    if sections != [] {
      var init := sections[..|sections| - 1];
      JoinedShared(init, c, shared);
      SharedLeft(Join(init), sections[|sections| - 1], c, shared);
    }
  }

  /**
   * Sections without repeated keys that share only keys in `shared`: every
   * declaration their join overrides declares a key in `shared`.
   */
  lemma {:induction false} JoinedOverrides(sections: seq<seq<Entry>>, shared: set<string>)
    requires SectionsDistinct(sections) && SectionsShare(sections, shared)
    ensures forall i | 0 <= i < |Join(sections)| && !LastDeclaration(Join(sections), i) ::
              Join(sections)[i].key in shared
    decreases |sections|
  {
    if sections != [] {
      var init := sections[..|sections| - 1];
      var last := sections[|sections| - 1];
      JoinedOverrides(init, shared);
      JoinedShared(init, last, shared);
      JoinOverrides(Join(init), last, shared);
      forall i | 0 <= i < |Join(sections)| && !LastDeclaration(Join(sections), i)
        ensures Join(sections)[i].key in shared
      {
        JoinedAt(Join(init), last, i);
      }
    }
  }

  /** Sections without repeated keys that share no key join into a literal without repeated keys. */
  lemma JoinedDistinct(sections: seq<seq<Entry>>)
    requires SectionsDistinct(sections) && SectionsShare(sections, {})
    ensures DistinctKeys(Join(sections))
  {
    JoinedOverrides(sections, {});
    UniqueKeysDistinct(Join(sections));
  }

  /** Swapping each section swaps their join. */
  lemma {:induction false} JoinedSwap(es: seq<seq<Entry>>, en: seq<seq<Entry>>)
    requires |es| == |en| && forall s | 0 <= s < |es| :: en[s] == Swap(es[s])
    ensures Join(en) == Swap(Join(es))
    decreases |es|
  {
    if es != [] {
      JoinedSwap(es[..|es| - 1], en[..|en| - 1]);
      SwapJoin(Join(es[..|es| - 1]), es[|es| - 1]);
    }
  }

  /**
   * A literal and its swap, whose texts are all different, where every
   * overridden declaration of the first declares a key in `shared`: each
   * text of the first map translates back to its key, and so does each text
   * of the second map whose translation is not in `shared`.
   */
  lemma MirrorUpToShared(es: seq<Entry>, en: seq<Entry>, shared: set<string>)
    requires en == Swap(es) && DistinctKeys(en)
    requires forall i | 0 <= i < |es| && !LastDeclaration(es, i) :: es[i].key in shared
    ensures forall k | k in ObjectLiteral(es) ::
              ObjectLiteral(es)[k] in ObjectLiteral(en) && ObjectLiteral(en)[ObjectLiteral(es)[k]] == k
    ensures forall k | k in ObjectLiteral(en) && ObjectLiteral(en)[k] !in shared ::
              ObjectLiteral(en)[k] in ObjectLiteral(es) && ObjectLiteral(es)[ObjectLiteral(en)[k]] == k
  {
    var a := ObjectLiteral(es);
    var b := ObjectLiteral(en);
    forall k | k in a ensures a[k] in b && b[a[k]] == k {
      var i := LastDeclarationOf(es, k);
      LastDeclarationWins(es, i);
      LastDeclarationWins(en, i);
    }
    forall k | k in b && b[k] !in shared ensures b[k] in a && a[b[k]] == k {
      var i := LastDeclarationOf(en, k);
      LastDeclarationWins(en, i);
      LastDeclarationWins(es, i);
    }
  }

  /**
   * Two literals written as mirrored sections, where the sections of the
   * second share no key and those of the first share only keys in `shared`:
   * each text of the first map translates back to its key, and so does each
   * text of the second map whose translation is not in `shared`.
   */
  lemma SectionsMirror(es: seq<seq<Entry>>, en: seq<seq<Entry>>, shared: set<string>)
    requires |es| == |en| && forall s | 0 <= s < |es| :: Mirror(es[s], en[s])
    requires SectionsShare(es, shared) && SectionsShare(en, {})
    ensures forall k | k in ObjectLiteral(Join(es)) ::
              ObjectLiteral(Join(es))[k] in ObjectLiteral(Join(en))
              && ObjectLiteral(Join(en))[ObjectLiteral(Join(es))[k]] == k
    ensures forall k | k in ObjectLiteral(Join(en)) && ObjectLiteral(Join(en))[k] !in shared ::
              ObjectLiteral(Join(en))[k] in ObjectLiteral(Join(es))
              && ObjectLiteral(Join(es))[ObjectLiteral(Join(en))[k]] == k
  {
    JoinedSwap(es, en);
    JoinedDistinct(en);
    JoinedOverrides(es, shared);
    MirrorUpToShared(Join(es), Join(en), shared);
  }

  /** `es`, navigation section (script.js:304-308). */
  const EsNavigation: seq<Entry> := [
    Entry("Home", "Home"),
    Entry("Rooms", "Habitaciones"),
    Entry("Services", "Servicios"),
    Entry("Gallery", "Galería"),
    Entry("Contact", "Contacto")
  ]

  /** `es`, hero section (script.js:311-313). */
  const EsHero: seq<Entry> := [
    Entry("Your home in the heart of Copacabana", "Tu hogar en el corazón de Copacabana"),
    Entry("Enjoy spectacular views of Lake Titicaca", "Disfruta de vistas espectaculares del Lago Titicaca"),
    Entry("Book via WhatsApp", "Reservar por WhatsApp")
  ]

  /** `es`, about section (script.js:316-323). */
  const EsAbout: seq<Entry> := [
    Entry("Welcome to Sol y Lago", "Bienvenidos a Sol y Lago"),
    Entry("Located in the picturesque city of Copacabana, Bolivia, our hostel offers a unique experience with stunning views of the majestic Lake Titicaca. Enjoy the tranquility and natural beauty while exploring one of the most mystical destinations in South America.", "Ubicado en la pintoresca ciudad de Copacabana, Bolivia, nuestro hostal ofrece una experiencia única con vistas impresionantes del majestuoso Lago Titicaca. Disfruta de la tranquilidad y belleza natural mientras exploras uno de los destinos más místicos de América del Sur."),
    Entry("Panoramic Views", "Vistas Panorámicas"),
    Entry("Wake up every morning to spectacular views of Lake Titicaca", "Despierta cada mañana con vistas espectaculares del Lago Titicaca"),
    Entry("Privileged Location", "Ubicación Privilegiada"),
    Entry("Steps away from downtown Copacabana and its main attractions", "A pasos del centro de Copacabana y sus principales atractivos"),
    Entry("Family Atmosphere", "Ambiente Familiar"),
    Entry("Personalized attention in a warm and welcoming environment", "Atención personalizada en un ambiente cálido y acogedor")
  ]

  /** `es`, rooms section (script.js:326-340). */
  const EsRooms: seq<Entry> := [
    Entry("Our Rooms", "Nuestras Habitaciones"),
    Entry("Single Room", "Habitación Individual"),
    Entry("Perfect for solo travelers seeking comfort and tranquility.", "Perfecta para viajeros solos que buscan comodidad y tranquilidad."),
    Entry("Comfortable single bed", "Cama individual cómoda"),
    Entry("Private bathroom", "Baño privado"),
    Entry("Lake view", "Vista al lago"),
    Entry("Double Room", "Habitación Doble"),
    Entry("Ideal for couples or friends traveling together.", "Ideal para parejas o amigos que viajan juntos."),
    Entry("Queen bed", "Cama matrimonial"),
    Entry("Terrace with view", "Terraza con vista"),
    Entry("Triple Room", "Habitación Triple"),
    Entry("Spacious room for small groups or families seeking comfort.", "Espaciosa habitación para grupos pequeños o familias que buscan confort."),
    Entry("Three single beds", "Tres camas individuales"),
    Entry("Large private bathroom", "Baño privado amplio"),
    Entry("Seating area", "Área de estar")
  ]

  /** `es`, amenities section (script.js:343-359). */
  const EsAmenities: seq<Entry> := [
    Entry("Services & Amenities", "Servicios y Comodidades"),
    Entry("Free WiFi", "WiFi Gratuito"),
    Entry("High-speed internet in all areas", "Internet de alta velocidad en todas las áreas"),
    Entry("Breakfast", "Desayuno"),
    Entry("Continental breakfast included", "Desayuno continental incluido"),
    Entry("Parking", "Estacionamiento"),
    Entry("Free parking available", "Estacionamiento gratuito disponible"),
    Entry("24h Reception", "Recepción 24h"),
    Entry("Personalized attention 24 hours a day", "Atención personalizada las 24 horas"),
    Entry("Luggage Storage", "Guarda Equipaje"),
    Entry("Luggage storage service", "Servicio de custodia de equipaje"),
    Entry("Tourist Information", "Información Turística"),
    Entry("Advice on tours and activities", "Asesoramiento sobre tours y actividades"),
    Entry("Hot Water", "Agua Caliente"),
    Entry("Hot water available 24 hours", "Agua caliente disponible las 24 horas"),
    Entry("Lake View", "Vista al Lago"),
    Entry("Rooms with panoramic views of Titicaca", "Habitaciones con vista panorámica al Titicaca")
  ]

  /** `es`, gallery section (script.js:362-368). */
  const EsGallery: seq<Entry> := [
    Entry("Photo Gallery", "Galería de Fotos"),
    Entry("Discover the beauty of our hostel and surroundings", "Descubre la belleza de nuestro hostal y sus alrededores"),
    Entry("Exterior View", "Vista Exterior"),
    Entry("Common Area", "Área Común"),
    Entry("Terrace", "Terraza"),
    Entry("Reception", "Recepción"),
    Entry("Hallways", "Pasillos")
  ]

  /** `es`, restaurant section (script.js:371-380). */
  const EsRestaurant: seq<Entry> := [
    Entry("Sol y Lago Restaurant", "Restaurante Sol y Lago"),
    Entry("Enjoy delicious Bolivian and international cuisine in our cozy restaurant with panoramic views of Lake Titicaca.", "Disfruta de deliciosos platos de la gastronomía boliviana e internacional en nuestro acogedor restaurante con vista panorámica al Lago Titicaca."),
    Entry("Bolivian & International Cuisine", "Cocina Boliviana e Internacional"),
    Entry("Lake Trout Specialty", "Especialidad en Trucha del Lago"),
    Entry("Homemade Breakfasts", "Desayunos Caseros"),
    Entry("Panoramic View", "Vista Panorámica"),
    Entry("Service Hours", "Horarios de Atención"),
    Entry("Breakfast: 7:00 - 10:00", "Desayuno: 7:00 - 10:00"),
    Entry("Lunch: 12:00 - 15:00", "Almuerzo: 12:00 - 15:00"),
    Entry("Dinner: 18:00 - 21:00", "Cena: 18:00 - 21:00")
  ]

  /** `es`, testimonials section (script.js:383). */
  const EsTestimonials: seq<Entry> := [
    Entry("What Our Guests Say", "Lo que Dicen Nuestros Huéspedes")
  ]

  /** `es`, location section (script.js:386-393). */
  const EsLocation: seq<Entry> := [
    Entry("Our Location", "Nuestra Ubicación"),
    Entry("In the Heart of Copacabana", "En el Corazón de Copacabana"),
    Entry("Hostal Sol y Lago is strategically located in Copacabana, Bolivia, offering easy access to:", "Hostal Sol y Lago se encuentra estratégicamente ubicado en Copacabana, Bolivia, ofreciendo fácil acceso a:"),
    Entry("Basilica of Copacabana (5 min walk)", "Basílica de Copacabana (5 min caminando)"),
    Entry("Lake Titicaca Port (3 min walk)", "Puerto del Lago Titicaca (3 min caminando)"),
    Entry("Calvario Hill (10 min walk)", "Cerro Calvario (10 min caminando)"),
    Entry("Local restaurants and cafes", "Restaurantes y cafés locales"),
    Entry("Craft markets", "Mercados de artesanías")
  ]

  /** `es`, contact section (script.js:396-411). */
  const EsContact: seq<Entry> := [
    Entry("Contact Us", "Contáctanos"),
    Entry("Address", "Dirección"),
    Entry("Email", "Email"),
    Entry("Reception Hours", "Horario de Recepción"),
    Entry("24 hours, every day", "24 horas, todos los días"),
    Entry("Contact Methods", "Formas de Contacto"),
    Entry("Immediate response", "Respuesta inmediata"),
    Entry("Detailed inquiries", "Consultas detalladas"),
    Entry("Call", "Llamar"),
    Entry("Direct attention", "Atención directa"),
    Entry("Quick Information", "Información Rápida"),
    Entry("Check-in: 2:00 PM", "Check-in: 14:00 hrs"),
    Entry("Check-out: 11:00 AM", "Check-out: 11:00 hrs"),
    Entry("Free WiFi", "WiFi gratuito"),
    Entry("Breakfast included", "Desayuno incluido"),
    Entry("Follow Us", "Síguenos")
  ]

  /** `es`, footer section (script.js:414-417). */
  const EsFooter: seq<Entry> := [
    Entry("Your home in Copacabana, Bolivia. Enjoy the magic of Lake Titicaca in a warm and welcoming environment.", "Tu hogar en Copacabana, Bolivia. Disfruta de la magia del Lago Titicaca en un ambiente cálido y acogedor."),
    Entry("Quick Links", "Enlaces Rápidos"),
    Entry("Information", "Información"),
    Entry("All rights reserved.", "Todos los derechos reservados.")
  ]

  /** `en`, navigation section (script.js:421-425). */
  const EnNavigation: seq<Entry> := [
    Entry("Home", "Home"),
    Entry("Habitaciones", "Rooms"),
    Entry("Servicios", "Services"),
    Entry("Galería", "Gallery"),
    Entry("Contacto", "Contact")
  ]

  /** `en`, hero section (script.js:428-430). */
  const EnHero: seq<Entry> := [
    Entry("Tu hogar en el corazón de Copacabana", "Your home in the heart of Copacabana"),
    Entry("Disfruta de vistas espectaculares del Lago Titicaca", "Enjoy spectacular views of Lake Titicaca"),
    Entry("Reservar por WhatsApp", "Book via WhatsApp")
  ]

  /** `en`, about section (script.js:433-440). */
  const EnAbout: seq<Entry> := [
    Entry("Bienvenidos a Sol y Lago", "Welcome to Sol y Lago"),
    Entry("Ubicado en la pintoresca ciudad de Copacabana, Bolivia, nuestro hostal ofrece una experiencia única con vistas impresionantes del majestuoso Lago Titicaca. Disfruta de la tranquilidad y belleza natural mientras exploras uno de los destinos más místicos de América del Sur.", "Located in the picturesque city of Copacabana, Bolivia, our hostel offers a unique experience with stunning views of the majestic Lake Titicaca. Enjoy the tranquility and natural beauty while exploring one of the most mystical destinations in South America."),
    Entry("Vistas Panorámicas", "Panoramic Views"),
    Entry("Despierta cada mañana con vistas espectaculares del Lago Titicaca", "Wake up every morning to spectacular views of Lake Titicaca"),
    Entry("Ubicación Privilegiada", "Privileged Location"),
    Entry("A pasos del centro de Copacabana y sus principales atractivos", "Steps away from downtown Copacabana and its main attractions"),
    Entry("Ambiente Familiar", "Family Atmosphere"),
    Entry("Atención personalizada en un ambiente cálido y acogedor", "Personalized attention in a warm and welcoming environment")
  ]

  /** `en`, rooms section (script.js:443-457). */
  const EnRooms: seq<Entry> := [
    Entry("Nuestras Habitaciones", "Our Rooms"),
    Entry("Habitación Individual", "Single Room"),
    Entry("Perfecta para viajeros solos que buscan comodidad y tranquilidad.", "Perfect for solo travelers seeking comfort and tranquility."),
    Entry("Cama individual cómoda", "Comfortable single bed"),
    Entry("Baño privado", "Private bathroom"),
    Entry("Vista al lago", "Lake view"),
    Entry("Habitación Doble", "Double Room"),
    Entry("Ideal para parejas o amigos que viajan juntos.", "Ideal for couples or friends traveling together."),
    Entry("Cama matrimonial", "Queen bed"),
    Entry("Terraza con vista", "Terrace with view"),
    Entry("Habitación Triple", "Triple Room"),
    Entry("Espaciosa habitación para grupos pequeños o familias que buscan confort.", "Spacious room for small groups or families seeking comfort."),
    Entry("Tres camas individuales", "Three single beds"),
    Entry("Baño privado amplio", "Large private bathroom"),
    Entry("Área de estar", "Seating area")
  ]

  /** `en`, amenities section (script.js:460-476). */
  const EnAmenities: seq<Entry> := [
    Entry("Servicios y Comodidades", "Services & Amenities"),
    Entry("WiFi Gratuito", "Free WiFi"),
    Entry("Internet de alta velocidad en todas las áreas", "High-speed internet in all areas"),
    Entry("Desayuno", "Breakfast"),
    Entry("Desayuno continental incluido", "Continental breakfast included"),
    Entry("Estacionamiento", "Parking"),
    Entry("Estacionamiento gratuito disponible", "Free parking available"),
    Entry("Recepción 24h", "24h Reception"),
    Entry("Atención personalizada las 24 horas", "Personalized attention 24 hours a day"),
    Entry("Guarda Equipaje", "Luggage Storage"),
    Entry("Servicio de custodia de equipaje", "Luggage storage service"),
    Entry("Información Turística", "Tourist Information"),
    Entry("Asesoramiento sobre tours y actividades", "Advice on tours and activities"),
    Entry("Agua Caliente", "Hot Water"),
    Entry("Agua caliente disponible las 24 horas", "Hot water available 24 hours"),
    Entry("Vista al Lago", "Lake View"),
    Entry("Habitaciones con vista panorámica al Titicaca", "Rooms with panoramic views of Titicaca")
  ]

  /** `en`, gallery section (script.js:479-485). */
  const EnGallery: seq<Entry> := [
    Entry("Galería de Fotos", "Photo Gallery"),
    Entry("Descubre la belleza de nuestro hostal y sus alrededores", "Discover the beauty of our hostel and surroundings"),
    Entry("Vista Exterior", "Exterior View"),
    Entry("Área Común", "Common Area"),
    Entry("Terraza", "Terrace"),
    Entry("Recepción", "Reception"),
    Entry("Pasillos", "Hallways")
  ]

  /** `en`, restaurant section (script.js:488-497). */
  const EnRestaurant: seq<Entry> := [
    Entry("Restaurante Sol y Lago", "Sol y Lago Restaurant"),
    Entry("Disfruta de deliciosos platos de la gastronomía boliviana e internacional en nuestro acogedor restaurante con vista panorámica al Lago Titicaca.", "Enjoy delicious Bolivian and international cuisine in our cozy restaurant with panoramic views of Lake Titicaca."),
    Entry("Cocina Boliviana e Internacional", "Bolivian & International Cuisine"),
    Entry("Especialidad en Trucha del Lago", "Lake Trout Specialty"),
    Entry("Desayunos Caseros", "Homemade Breakfasts"),
    Entry("Vista Panorámica", "Panoramic View"),
    Entry("Horarios de Atención", "Service Hours"),
    Entry("Desayuno: 7:00 - 10:00", "Breakfast: 7:00 - 10:00"),
    Entry("Almuerzo: 12:00 - 15:00", "Lunch: 12:00 - 15:00"),
    Entry("Cena: 18:00 - 21:00", "Dinner: 18:00 - 21:00")
  ]

  /** `en`, testimonials section (script.js:500). */
  const EnTestimonials: seq<Entry> := [
    Entry("Lo que Dicen Nuestros Huéspedes", "What Our Guests Say")
  ]

  /** `en`, location section (script.js:503-510). */
  const EnLocation: seq<Entry> := [
    Entry("Nuestra Ubicación", "Our Location"),
    Entry("En el Corazón de Copacabana", "In the Heart of Copacabana"),
    Entry("Hostal Sol y Lago se encuentra estratégicamente ubicado en Copacabana, Bolivia, ofreciendo fácil acceso a:", "Hostal Sol y Lago is strategically located in Copacabana, Bolivia, offering easy access to:"),
    Entry("Basílica de Copacabana (5 min caminando)", "Basilica of Copacabana (5 min walk)"),
    Entry("Puerto del Lago Titicaca (3 min caminando)", "Lake Titicaca Port (3 min walk)"),
    Entry("Cerro Calvario (10 min caminando)", "Calvario Hill (10 min walk)"),
    Entry("Restaurantes y cafés locales", "Local restaurants and cafes"),
    Entry("Mercados de artesanías", "Craft markets")
  ]

  /** `en`, contact section (script.js:513-528). */
  const EnContact: seq<Entry> := [
    Entry("Contáctanos", "Contact Us"),
    Entry("Dirección", "Address"),
    Entry("Email", "Email"),
    Entry("Horario de Recepción", "Reception Hours"),
    Entry("24 horas, todos los días", "24 hours, every day"),
    Entry("Formas de Contacto", "Contact Methods"),
    Entry("Respuesta inmediata", "Immediate response"),
    Entry("Consultas detalladas", "Detailed inquiries"),
    Entry("Llamar", "Call"),
    Entry("Atención directa", "Direct attention"),
    Entry("Información Rápida", "Quick Information"),
    Entry("Check-in: 14:00 hrs", "Check-in: 2:00 PM"),
    Entry("Check-out: 11:00 hrs", "Check-out: 11:00 AM"),
    Entry("WiFi gratuito", "Free WiFi"),
    Entry("Desayuno incluido", "Breakfast included"),
    Entry("Síguenos", "Follow Us")
  ]

  /** `en`, footer section (script.js:531-534). */
  const EnFooter: seq<Entry> := [
    Entry("Tu hogar en Copacabana, Bolivia. Disfruta de la magia del Lago Titicaca en un ambiente cálido y acogedor.", "Your home in Copacabana, Bolivia. Enjoy the magic of Lake Titicaca in a warm and welcoming environment."),
    Entry("Enlaces Rápidos", "Quick Links"),
    Entry("Información", "Information"),
    Entry("Todos los derechos reservados.", "All rights reserved.")
  ]

  /** The `es` literal (script.js:302-418): its sections in source order. */
  const SpanishSections: seq<seq<Entry>> :=
    [EsNavigation, EsHero, EsAbout, EsRooms, EsAmenities, EsGallery,
     EsRestaurant, EsTestimonials, EsLocation, EsContact, EsFooter]
  const SpanishEntries: seq<Entry> := Join(SpanishSections)

  /** The `en` literal (script.js:419-535): its sections in source order. */
  const EnglishSections: seq<seq<Entry>> :=
    [EnNavigation, EnHero, EnAbout, EnRooms, EnAmenities, EnGallery,
     EnRestaurant, EnTestimonials, EnLocation, EnContact, EnFooter]
  const EnglishEntries: seq<Entry> := Join(EnglishSections)

  /** `translations` (script.js:301-536). */
  const Translations: map<string, PhraseMap> :=
    map["es" := ObjectLiteral(SpanishEntries), "en" := ObjectLiteral(EnglishEntries)]

  /** The navigation sections (script.js:304-308 and 421-425) mirror each other. */
  lemma NavigationMirror()
    ensures Mirror(EsNavigation, EnNavigation)
    ensures Inverse(ObjectLiteral(EsNavigation), ObjectLiteral(EnNavigation))
  {
    NavigationSpanishKeysDistinct();
    NavigationEnglishKeysDistinct();
    MirrorIsInverse(EsNavigation, EnNavigation);
  }

  lemma NavigationSpanishKeysDistinct()
    ensures DistinctKeys(EsNavigation)
  {
  }

  lemma NavigationEnglishKeysDistinct()
    ensures DistinctKeys(EnNavigation)
  {
  }

  /** The hero sections (script.js:311-313 and 428-430) mirror each other. */
  lemma HeroMirror()
    ensures Mirror(EsHero, EnHero)
    ensures Inverse(ObjectLiteral(EsHero), ObjectLiteral(EnHero))
  {
    HeroSpanishKeysDistinct();
    HeroEnglishKeysDistinct();
    MirrorIsInverse(EsHero, EnHero);
  }

  lemma HeroSpanishKeysDistinct()
    ensures DistinctKeys(EsHero)
  {
  }

  lemma HeroEnglishKeysDistinct()
    ensures DistinctKeys(EnHero)
  {
  }

  /** The about sections (script.js:316-323 and 433-440) mirror each other. */
  lemma AboutMirror()
    ensures Mirror(EsAbout, EnAbout)
    ensures Inverse(ObjectLiteral(EsAbout), ObjectLiteral(EnAbout))
  {
    AboutSpanishKeysDistinct();
    AboutEnglishKeysDistinct();
    MirrorIsInverse(EsAbout, EnAbout);
  }

  lemma AboutSpanishKeysDistinct()
    ensures DistinctKeys(EsAbout)
  {
    AboutSpanishKeysUnique0();
    AboutSpanishKeysUnique1();
    AboutSpanishKeysUnique2();
    AboutSpanishKeysUnique3();
    AboutSpanishKeysUnique4();
    UniqueKeysDistinct(EsAbout);
  }

  lemma AboutSpanishKeysUnique0()
    ensures forall i | i == 0 :: LastDeclaration(EsAbout, i)
  {
  }

  lemma AboutSpanishKeysUnique1()
    ensures forall i | i == 1 :: LastDeclaration(EsAbout, i)
  {
  }

  lemma AboutSpanishKeysUnique2()
    ensures forall i | i == 2 :: LastDeclaration(EsAbout, i)
  {
  }

  lemma AboutSpanishKeysUnique3()
    ensures forall i | 3 <= i < 5 :: LastDeclaration(EsAbout, i)
  {
  }

  lemma AboutSpanishKeysUnique4()
    ensures forall i | 5 <= i < 8 :: LastDeclaration(EsAbout, i)
  {
  }

  lemma AboutEnglishKeysDistinct()
    ensures DistinctKeys(EnAbout)
  {
    AboutEnglishKeysUnique0();
    AboutEnglishKeysUnique1();
    AboutEnglishKeysUnique2();
    AboutEnglishKeysUnique3();
    AboutEnglishKeysUnique4();
    UniqueKeysDistinct(EnAbout);
  }

  lemma AboutEnglishKeysUnique0()
    ensures forall i | i == 0 :: LastDeclaration(EnAbout, i)
  {
  }

  lemma AboutEnglishKeysUnique1()
    ensures forall i | i == 1 :: LastDeclaration(EnAbout, i)
  {
  }

  lemma AboutEnglishKeysUnique2()
    ensures forall i | i == 2 :: LastDeclaration(EnAbout, i)
  {
  }

  lemma AboutEnglishKeysUnique3()
    ensures forall i | 3 <= i < 5 :: LastDeclaration(EnAbout, i)
  {
  }

  lemma AboutEnglishKeysUnique4()
    ensures forall i | 5 <= i < 8 :: LastDeclaration(EnAbout, i)
  {
  }

  /** The rooms sections (script.js:326-340 and 443-457) mirror each other. */
  lemma RoomsMirror()
    ensures Mirror(EsRooms, EnRooms)
    ensures Inverse(ObjectLiteral(EsRooms), ObjectLiteral(EnRooms))
  {
    RoomsSpanishKeysDistinct();
    RoomsEnglishKeysDistinct();
    MirrorIsInverse(EsRooms, EnRooms);
  }

  lemma RoomsSpanishKeysDistinct()
    ensures DistinctKeys(EsRooms)
  {
    RoomsSpanishKeysUnique0();
    RoomsSpanishKeysUnique1();
    RoomsSpanishKeysUnique2();
    UniqueKeysDistinct(EsRooms);
  }

  lemma RoomsSpanishKeysUnique0()
    ensures forall i | 0 <= i < 3 :: LastDeclaration(EsRooms, i)
  {
  }

  lemma RoomsSpanishKeysUnique1()
    ensures forall i | 3 <= i < 8 :: LastDeclaration(EsRooms, i)
  {
  }

  lemma RoomsSpanishKeysUnique2()
    ensures forall i | 8 <= i < 15 :: LastDeclaration(EsRooms, i)
  {
  }

  lemma RoomsEnglishKeysDistinct()
    ensures DistinctKeys(EnRooms)
  {
    RoomsEnglishKeysUnique0();
    RoomsEnglishKeysUnique1();
    RoomsEnglishKeysUnique2();
    UniqueKeysDistinct(EnRooms);
  }

  lemma RoomsEnglishKeysUnique0()
    ensures forall i | 0 <= i < 3 :: LastDeclaration(EnRooms, i)
  {
  }

  lemma RoomsEnglishKeysUnique1()
    ensures forall i | 3 <= i < 8 :: LastDeclaration(EnRooms, i)
  {
  }

  lemma RoomsEnglishKeysUnique2()
    ensures forall i | 8 <= i < 15 :: LastDeclaration(EnRooms, i)
  {
  }

  /** The amenities sections (script.js:343-359 and 460-476) mirror each other. */
  lemma AmenitiesMirror()
    ensures Mirror(EsAmenities, EnAmenities)
    ensures Inverse(ObjectLiteral(EsAmenities), ObjectLiteral(EnAmenities))
  {
    AmenitiesSpanishKeysDistinct();
    AmenitiesEnglishKeysDistinct();
    MirrorIsInverse(EsAmenities, EnAmenities);
  }

  lemma AmenitiesSpanishKeysDistinct()
    ensures DistinctKeys(EsAmenities)
  {
    AmenitiesSpanishKeysUnique0();
    AmenitiesSpanishKeysUnique1();
    AmenitiesSpanishKeysUnique2();
    AmenitiesSpanishKeysUnique3();
    UniqueKeysDistinct(EsAmenities);
  }

  lemma AmenitiesSpanishKeysUnique0()
    ensures forall i | 0 <= i < 3 :: LastDeclaration(EsAmenities, i)
  {
  }

  lemma AmenitiesSpanishKeysUnique1()
    ensures forall i | 3 <= i < 6 :: LastDeclaration(EsAmenities, i)
  {
  }

  lemma AmenitiesSpanishKeysUnique2()
    ensures forall i | 6 <= i < 12 :: LastDeclaration(EsAmenities, i)
  {
  }

  lemma AmenitiesSpanishKeysUnique3()
    ensures forall i | 12 <= i < 17 :: LastDeclaration(EsAmenities, i)
  {
  }

  lemma AmenitiesEnglishKeysDistinct()
    ensures DistinctKeys(EnAmenities)
  {
    AmenitiesEnglishKeysUnique0();
    AmenitiesEnglishKeysUnique1();
    AmenitiesEnglishKeysUnique2();
    AmenitiesEnglishKeysUnique3();
    UniqueKeysDistinct(EnAmenities);
  }

  lemma AmenitiesEnglishKeysUnique0()
    ensures forall i | 0 <= i < 3 :: LastDeclaration(EnAmenities, i)
  {
  }

  lemma AmenitiesEnglishKeysUnique1()
    ensures forall i | 3 <= i < 6 :: LastDeclaration(EnAmenities, i)
  {
  }

  lemma AmenitiesEnglishKeysUnique2()
    ensures forall i | 6 <= i < 12 :: LastDeclaration(EnAmenities, i)
  {
  }

  lemma AmenitiesEnglishKeysUnique3()
    ensures forall i | 12 <= i < 17 :: LastDeclaration(EnAmenities, i)
  {
  }

  /** The gallery sections (script.js:362-368 and 479-485) mirror each other. */
  lemma GalleryMirror()
    ensures Mirror(EsGallery, EnGallery)
    ensures Inverse(ObjectLiteral(EsGallery), ObjectLiteral(EnGallery))
  {
    GallerySpanishKeysDistinct();
    GalleryEnglishKeysDistinct();
    MirrorIsInverse(EsGallery, EnGallery);
  }

  lemma GallerySpanishKeysDistinct()
    ensures DistinctKeys(EsGallery)
  {
  }

  lemma GalleryEnglishKeysDistinct()
    ensures DistinctKeys(EnGallery)
  {
  }

  /** The restaurant sections (script.js:371-380 and 488-497) mirror each other. */
  lemma RestaurantMirror()
    ensures Mirror(EsRestaurant, EnRestaurant)
    ensures Inverse(ObjectLiteral(EsRestaurant), ObjectLiteral(EnRestaurant))
  {
    RestaurantSpanishKeysDistinct();
    RestaurantEnglishKeysDistinct();
    MirrorIsInverse(EsRestaurant, EnRestaurant);
  }

  lemma RestaurantSpanishKeysDistinct()
    ensures DistinctKeys(EsRestaurant)
  {
  }

  lemma RestaurantEnglishKeysDistinct()
    ensures DistinctKeys(EnRestaurant)
  {
  }

  /** The testimonials sections (script.js:383 and 500) mirror each other. */
  lemma TestimonialsMirror()
    ensures Mirror(EsTestimonials, EnTestimonials)
    ensures Inverse(ObjectLiteral(EsTestimonials), ObjectLiteral(EnTestimonials))
  {
    TestimonialsSpanishKeysDistinct();
    TestimonialsEnglishKeysDistinct();
    MirrorIsInverse(EsTestimonials, EnTestimonials);
  }

  lemma TestimonialsSpanishKeysDistinct()
    ensures DistinctKeys(EsTestimonials)
  {
  }

  lemma TestimonialsEnglishKeysDistinct()
    ensures DistinctKeys(EnTestimonials)
  {
  }

  /** The location sections (script.js:386-393 and 503-510) mirror each other. */
  lemma LocationMirror()
    ensures Mirror(EsLocation, EnLocation)
    ensures Inverse(ObjectLiteral(EsLocation), ObjectLiteral(EnLocation))
  {
    LocationSpanishKeysDistinct();
    LocationEnglishKeysDistinct();
    MirrorIsInverse(EsLocation, EnLocation);
  }

  lemma LocationSpanishKeysDistinct()
    ensures DistinctKeys(EsLocation)
  {
  }

  lemma LocationEnglishKeysDistinct()
    ensures DistinctKeys(EnLocation)
  {
  }

  /** The contact sections (script.js:396-411 and 513-528) mirror each other. */
  lemma ContactMirror()
    ensures Mirror(EsContact, EnContact)
    ensures Inverse(ObjectLiteral(EsContact), ObjectLiteral(EnContact))
  {
    ContactSpanishKeysDistinct();
    ContactEnglishKeysDistinct();
    MirrorIsInverse(EsContact, EnContact);
  }

  lemma ContactSpanishKeysDistinct()
    ensures DistinctKeys(EsContact)
  {
    ContactSpanishKeysUnique0();
    ContactSpanishKeysUnique1();
    ContactSpanishKeysUnique2();
    UniqueKeysDistinct(EsContact);
  }

  lemma ContactSpanishKeysUnique0()
    ensures forall i | 0 <= i < 3 :: LastDeclaration(EsContact, i)
  {
  }

  lemma ContactSpanishKeysUnique1()
    ensures forall i | 3 <= i < 7 :: LastDeclaration(EsContact, i)
  {
  }

  lemma ContactSpanishKeysUnique2()
    ensures forall i | 7 <= i < 16 :: LastDeclaration(EsContact, i)
  {
  }

  lemma ContactEnglishKeysDistinct()
    ensures DistinctKeys(EnContact)
  {
    ContactEnglishKeysUnique0();
    ContactEnglishKeysUnique1();
    ContactEnglishKeysUnique2();
    UniqueKeysDistinct(EnContact);
  }

  lemma ContactEnglishKeysUnique0()
    ensures forall i | 0 <= i < 3 :: LastDeclaration(EnContact, i)
  {
  }

  lemma ContactEnglishKeysUnique1()
    ensures forall i | 3 <= i < 7 :: LastDeclaration(EnContact, i)
  {
  }

  lemma ContactEnglishKeysUnique2()
    ensures forall i | 7 <= i < 16 :: LastDeclaration(EnContact, i)
  {
  }

  /** The footer sections (script.js:414-417 and 531-534) mirror each other. */
  lemma FooterMirror()
    ensures Mirror(EsFooter, EnFooter)
    ensures Inverse(ObjectLiteral(EsFooter), ObjectLiteral(EnFooter))
  {
    FooterSpanishKeysDistinct();
    FooterEnglishKeysDistinct();
    MirrorIsInverse(EsFooter, EnFooter);
  }

  lemma FooterSpanishKeysDistinct()
    ensures DistinctKeys(EsFooter)
  {
  }

  lemma FooterEnglishKeysDistinct()
    ensures DistinctKeys(EnFooter)
  {
  }

  /**
   * Across sections: two sections of the same literal share no key, except
   * the amenities and contact sections of `es`, which share "Free WiFi". One
   * lemma per pair of sections; the larger pairs are split by declaration.
   */
  lemma NavigationHeroSpanishKeysApart()
    ensures SharedKeysWithin(EsNavigation, EsHero, {})
  {
  }

  lemma NavigationAboutSpanishKeysApart()
    ensures SharedKeysWithin(EsNavigation, EsAbout, {})
  {
  }

  lemma HeroAboutSpanishKeysApart()
    ensures SharedKeysWithin(EsHero, EsAbout, {})
  {
  }

  lemma NavigationRoomsSpanishKeysApart()
    ensures SharedKeysWithin(EsNavigation, EsRooms, {})
  {
  }

  lemma HeroRoomsSpanishKeysApart()
    ensures SharedKeysWithin(EsHero, EsRooms, {})
  {
  }

  lemma AboutRoomsSpanishKeysApart()
    ensures SharedKeysWithin(EsAbout, EsRooms, {})
  {
    AboutRoomsSpanishKeysApart0();
    AboutRoomsSpanishKeysApart1();
  }

  lemma AboutRoomsSpanishKeysApart0()
    ensures forall i, j | 0 <= i < 4 && 0 <= j < |EsRooms| :: EsAbout[i].key != EsRooms[j].key
  {
  }

  lemma AboutRoomsSpanishKeysApart1()
    ensures forall i, j | 4 <= i < |EsAbout| && 0 <= j < |EsRooms| :: EsAbout[i].key != EsRooms[j].key
  {
  }

  lemma NavigationAmenitiesSpanishKeysApart()
    ensures SharedKeysWithin(EsNavigation, EsAmenities, {})
  {
  }

  lemma HeroAmenitiesSpanishKeysApart()
    ensures SharedKeysWithin(EsHero, EsAmenities, {})
  {
  }

  lemma AboutAmenitiesSpanishKeysApart()
    ensures SharedKeysWithin(EsAbout, EsAmenities, {})
  {
    AboutAmenitiesSpanishKeysApart0();
    AboutAmenitiesSpanishKeysApart1();
  }

  lemma AboutAmenitiesSpanishKeysApart0()
    ensures forall i, j | 0 <= i < 4 && 0 <= j < |EsAmenities| :: EsAbout[i].key != EsAmenities[j].key
  {
  }

  lemma AboutAmenitiesSpanishKeysApart1()
    ensures forall i, j | 4 <= i < |EsAbout| && 0 <= j < |EsAmenities| :: EsAbout[i].key != EsAmenities[j].key
  {
  }

  lemma RoomsAmenitiesSpanishKeysApart()
    ensures SharedKeysWithin(EsRooms, EsAmenities, {})
  {
    RoomsAmenitiesSpanishKeysApart0();
    RoomsAmenitiesSpanishKeysApart1();
  }

  lemma RoomsAmenitiesSpanishKeysApart0()
    ensures forall i, j | 0 <= i < 7 && 0 <= j < |EsAmenities| :: EsRooms[i].key != EsAmenities[j].key
  {
  }

  lemma RoomsAmenitiesSpanishKeysApart1()
    ensures forall i, j | 7 <= i < |EsRooms| && 0 <= j < |EsAmenities| :: EsRooms[i].key != EsAmenities[j].key
  {
  }

  lemma NavigationGallerySpanishKeysApart()
    ensures SharedKeysWithin(EsNavigation, EsGallery, {})
  {
  }

  lemma HeroGallerySpanishKeysApart()
    ensures SharedKeysWithin(EsHero, EsGallery, {})
  {
  }

  lemma AboutGallerySpanishKeysApart()
    ensures SharedKeysWithin(EsAbout, EsGallery, {})
  {
  }

  lemma RoomsGallerySpanishKeysApart()
    ensures SharedKeysWithin(EsRooms, EsGallery, {})
  {
  }

  lemma AmenitiesGallerySpanishKeysApart()
    ensures SharedKeysWithin(EsAmenities, EsGallery, {})
  {
  }

  lemma NavigationRestaurantSpanishKeysApart()
    ensures SharedKeysWithin(EsNavigation, EsRestaurant, {})
  {
  }

  lemma HeroRestaurantSpanishKeysApart()
    ensures SharedKeysWithin(EsHero, EsRestaurant, {})
  {
  }

  lemma AboutRestaurantSpanishKeysApart()
    ensures SharedKeysWithin(EsAbout, EsRestaurant, {})
  {
    AboutRestaurantSpanishKeysApart0();
    AboutRestaurantSpanishKeysApart1();
  }

  lemma AboutRestaurantSpanishKeysApart0()
    ensures forall i, j | 0 <= i < 4 && 0 <= j < |EsRestaurant| :: EsAbout[i].key != EsRestaurant[j].key
  {
  }

  lemma AboutRestaurantSpanishKeysApart1()
    ensures forall i, j | 4 <= i < |EsAbout| && 0 <= j < |EsRestaurant| :: EsAbout[i].key != EsRestaurant[j].key
  {
  }

  lemma RoomsRestaurantSpanishKeysApart()
    ensures SharedKeysWithin(EsRooms, EsRestaurant, {})
  {
  }

  lemma AmenitiesRestaurantSpanishKeysApart()
    ensures SharedKeysWithin(EsAmenities, EsRestaurant, {})
  {
  }

  lemma GalleryRestaurantSpanishKeysApart()
    ensures SharedKeysWithin(EsGallery, EsRestaurant, {})
  {
  }

  lemma NavigationTestimonialsSpanishKeysApart()
    ensures SharedKeysWithin(EsNavigation, EsTestimonials, {})
  {
  }

  lemma HeroTestimonialsSpanishKeysApart()
    ensures SharedKeysWithin(EsHero, EsTestimonials, {})
  {
  }

  lemma AboutTestimonialsSpanishKeysApart()
    ensures SharedKeysWithin(EsAbout, EsTestimonials, {})
  {
  }

  lemma RoomsTestimonialsSpanishKeysApart()
    ensures SharedKeysWithin(EsRooms, EsTestimonials, {})
  {
  }

  lemma AmenitiesTestimonialsSpanishKeysApart()
    ensures SharedKeysWithin(EsAmenities, EsTestimonials, {})
  {
  }

  lemma GalleryTestimonialsSpanishKeysApart()
    ensures SharedKeysWithin(EsGallery, EsTestimonials, {})
  {
  }

  lemma RestaurantTestimonialsSpanishKeysApart()
    ensures SharedKeysWithin(EsRestaurant, EsTestimonials, {})
  {
  }

  lemma NavigationLocationSpanishKeysApart()
    ensures SharedKeysWithin(EsNavigation, EsLocation, {})
  {
  }

  lemma HeroLocationSpanishKeysApart()
    ensures SharedKeysWithin(EsHero, EsLocation, {})
  {
  }

  lemma AboutLocationSpanishKeysApart()
    ensures SharedKeysWithin(EsAbout, EsLocation, {})
  {
    AboutLocationSpanishKeysApart0();
    AboutLocationSpanishKeysApart1();
  }

  lemma AboutLocationSpanishKeysApart0()
    ensures forall i, j | 0 <= i < 4 && 0 <= j < |EsLocation| :: EsAbout[i].key != EsLocation[j].key
  {
  }

  lemma AboutLocationSpanishKeysApart1()
    ensures forall i, j | 4 <= i < |EsAbout| && 0 <= j < |EsLocation| :: EsAbout[i].key != EsLocation[j].key
  {
  }

  lemma RoomsLocationSpanishKeysApart()
    ensures SharedKeysWithin(EsRooms, EsLocation, {})
  {
  }

  lemma AmenitiesLocationSpanishKeysApart()
    ensures SharedKeysWithin(EsAmenities, EsLocation, {})
  {
  }

  lemma GalleryLocationSpanishKeysApart()
    ensures SharedKeysWithin(EsGallery, EsLocation, {})
  {
  }

  lemma RestaurantLocationSpanishKeysApart()
    ensures SharedKeysWithin(EsRestaurant, EsLocation, {})
  {
  }

  lemma TestimonialsLocationSpanishKeysApart()
    ensures SharedKeysWithin(EsTestimonials, EsLocation, {})
  {
  }

  lemma NavigationContactSpanishKeysApart()
    ensures SharedKeysWithin(EsNavigation, EsContact, {})
  {
  }

  lemma HeroContactSpanishKeysApart()
    ensures SharedKeysWithin(EsHero, EsContact, {})
  {
  }

  lemma AboutContactSpanishKeysApart()
    ensures SharedKeysWithin(EsAbout, EsContact, {})
  {
    AboutContactSpanishKeysApart0();
    AboutContactSpanishKeysApart1();
  }

  lemma AboutContactSpanishKeysApart0()
    ensures forall i, j | 0 <= i < 4 && 0 <= j < |EsContact| :: EsAbout[i].key != EsContact[j].key
  {
  }

  lemma AboutContactSpanishKeysApart1()
    ensures forall i, j | 4 <= i < |EsAbout| && 0 <= j < |EsContact| :: EsAbout[i].key != EsContact[j].key
  {
  }

  lemma RoomsContactSpanishKeysApart()
    ensures SharedKeysWithin(EsRooms, EsContact, {})
  {
  }

  lemma AmenitiesContactSpanishKeysApart()
    ensures SharedKeysWithin(EsAmenities, EsContact, {"Free WiFi"})
  {
  }

  lemma GalleryContactSpanishKeysApart()
    ensures SharedKeysWithin(EsGallery, EsContact, {})
  {
  }

  lemma RestaurantContactSpanishKeysApart()
    ensures SharedKeysWithin(EsRestaurant, EsContact, {})
  {
  }

  lemma TestimonialsContactSpanishKeysApart()
    ensures SharedKeysWithin(EsTestimonials, EsContact, {})
  {
  }

  lemma LocationContactSpanishKeysApart()
    ensures SharedKeysWithin(EsLocation, EsContact, {})
  {
  }

  lemma NavigationFooterSpanishKeysApart()
    ensures SharedKeysWithin(EsNavigation, EsFooter, {})
  {
  }

  lemma HeroFooterSpanishKeysApart()
    ensures SharedKeysWithin(EsHero, EsFooter, {})
  {
  }

  lemma AboutFooterSpanishKeysApart()
    ensures SharedKeysWithin(EsAbout, EsFooter, {})
  {
  }

  lemma RoomsFooterSpanishKeysApart()
    ensures SharedKeysWithin(EsRooms, EsFooter, {})
  {
  }

  lemma AmenitiesFooterSpanishKeysApart()
    ensures SharedKeysWithin(EsAmenities, EsFooter, {})
  {
  }

  lemma GalleryFooterSpanishKeysApart()
    ensures SharedKeysWithin(EsGallery, EsFooter, {})
  {
  }

  lemma RestaurantFooterSpanishKeysApart()
    ensures SharedKeysWithin(EsRestaurant, EsFooter, {})
  {
  }

  lemma TestimonialsFooterSpanishKeysApart()
    ensures SharedKeysWithin(EsTestimonials, EsFooter, {})
  {
  }

  lemma LocationFooterSpanishKeysApart()
    ensures SharedKeysWithin(EsLocation, EsFooter, {})
  {
  }

  lemma ContactFooterSpanishKeysApart()
    ensures SharedKeysWithin(EsContact, EsFooter, {})
  {
  }

  lemma NavigationHeroEnglishKeysApart()
    ensures SharedKeysWithin(EnNavigation, EnHero, {})
  {
  }

  lemma NavigationAboutEnglishKeysApart()
    ensures SharedKeysWithin(EnNavigation, EnAbout, {})
  {
  }

  lemma HeroAboutEnglishKeysApart()
    ensures SharedKeysWithin(EnHero, EnAbout, {})
  {
  }

  lemma NavigationRoomsEnglishKeysApart()
    ensures SharedKeysWithin(EnNavigation, EnRooms, {})
  {
  }

  lemma HeroRoomsEnglishKeysApart()
    ensures SharedKeysWithin(EnHero, EnRooms, {})
  {
  }

  lemma AboutRoomsEnglishKeysApart()
    ensures SharedKeysWithin(EnAbout, EnRooms, {})
  {
    AboutRoomsEnglishKeysApart0();
    AboutRoomsEnglishKeysApart1();
  }

  lemma AboutRoomsEnglishKeysApart0()
    ensures forall i, j | 0 <= i < 4 && 0 <= j < |EnRooms| :: EnAbout[i].key != EnRooms[j].key
  {
  }

  lemma AboutRoomsEnglishKeysApart1()
    ensures forall i, j | 4 <= i < |EnAbout| && 0 <= j < |EnRooms| :: EnAbout[i].key != EnRooms[j].key
  {
  }

  lemma NavigationAmenitiesEnglishKeysApart()
    ensures SharedKeysWithin(EnNavigation, EnAmenities, {})
  {
  }

  lemma HeroAmenitiesEnglishKeysApart()
    ensures SharedKeysWithin(EnHero, EnAmenities, {})
  {
  }

  lemma AboutAmenitiesEnglishKeysApart()
    ensures SharedKeysWithin(EnAbout, EnAmenities, {})
  {
    AboutAmenitiesEnglishKeysApart0();
    AboutAmenitiesEnglishKeysApart1();
  }

  lemma AboutAmenitiesEnglishKeysApart0()
    ensures forall i, j | 0 <= i < 4 && 0 <= j < |EnAmenities| :: EnAbout[i].key != EnAmenities[j].key
  {
  }

  lemma AboutAmenitiesEnglishKeysApart1()
    ensures forall i, j | 4 <= i < |EnAbout| && 0 <= j < |EnAmenities| :: EnAbout[i].key != EnAmenities[j].key
  {
  }

  lemma RoomsAmenitiesEnglishKeysApart()
    ensures SharedKeysWithin(EnRooms, EnAmenities, {})
  {
    RoomsAmenitiesEnglishKeysApart0();
    RoomsAmenitiesEnglishKeysApart1();
  }

  lemma RoomsAmenitiesEnglishKeysApart0()
    ensures forall i, j | 0 <= i < 7 && 0 <= j < |EnAmenities| :: EnRooms[i].key != EnAmenities[j].key
  {
  }

  lemma RoomsAmenitiesEnglishKeysApart1()
    ensures forall i, j | 7 <= i < |EnRooms| && 0 <= j < |EnAmenities| :: EnRooms[i].key != EnAmenities[j].key
  {
  }

  lemma NavigationGalleryEnglishKeysApart()
    ensures SharedKeysWithin(EnNavigation, EnGallery, {})
  {
  }

  lemma HeroGalleryEnglishKeysApart()
    ensures SharedKeysWithin(EnHero, EnGallery, {})
  {
  }

  lemma AboutGalleryEnglishKeysApart()
    ensures SharedKeysWithin(EnAbout, EnGallery, {})
  {
  }

  lemma RoomsGalleryEnglishKeysApart()
    ensures SharedKeysWithin(EnRooms, EnGallery, {})
  {
  }

  lemma AmenitiesGalleryEnglishKeysApart()
    ensures SharedKeysWithin(EnAmenities, EnGallery, {})
  {
  }

  lemma NavigationRestaurantEnglishKeysApart()
    ensures SharedKeysWithin(EnNavigation, EnRestaurant, {})
  {
  }

  lemma HeroRestaurantEnglishKeysApart()
    ensures SharedKeysWithin(EnHero, EnRestaurant, {})
  {
  }

  lemma AboutRestaurantEnglishKeysApart()
    ensures SharedKeysWithin(EnAbout, EnRestaurant, {})
  {
    AboutRestaurantEnglishKeysApart0();
    AboutRestaurantEnglishKeysApart1();
  }

  lemma AboutRestaurantEnglishKeysApart0()
    ensures forall i, j | 0 <= i < 4 && 0 <= j < |EnRestaurant| :: EnAbout[i].key != EnRestaurant[j].key
  {
  }

  lemma AboutRestaurantEnglishKeysApart1()
    ensures forall i, j | 4 <= i < |EnAbout| && 0 <= j < |EnRestaurant| :: EnAbout[i].key != EnRestaurant[j].key
  {
  }

  lemma RoomsRestaurantEnglishKeysApart()
    ensures SharedKeysWithin(EnRooms, EnRestaurant, {})
  {
  }

  lemma AmenitiesRestaurantEnglishKeysApart()
    ensures SharedKeysWithin(EnAmenities, EnRestaurant, {})
  {
  }

  lemma GalleryRestaurantEnglishKeysApart()
    ensures SharedKeysWithin(EnGallery, EnRestaurant, {})
  {
  }

  lemma NavigationTestimonialsEnglishKeysApart()
    ensures SharedKeysWithin(EnNavigation, EnTestimonials, {})
  {
  }

  lemma HeroTestimonialsEnglishKeysApart()
    ensures SharedKeysWithin(EnHero, EnTestimonials, {})
  {
  }

  lemma AboutTestimonialsEnglishKeysApart()
    ensures SharedKeysWithin(EnAbout, EnTestimonials, {})
  {
  }

  lemma RoomsTestimonialsEnglishKeysApart()
    ensures SharedKeysWithin(EnRooms, EnTestimonials, {})
  {
  }

  lemma AmenitiesTestimonialsEnglishKeysApart()
    ensures SharedKeysWithin(EnAmenities, EnTestimonials, {})
  {
  }

  lemma GalleryTestimonialsEnglishKeysApart()
    ensures SharedKeysWithin(EnGallery, EnTestimonials, {})
  {
  }

  lemma RestaurantTestimonialsEnglishKeysApart()
    ensures SharedKeysWithin(EnRestaurant, EnTestimonials, {})
  {
  }

  lemma NavigationLocationEnglishKeysApart()
    ensures SharedKeysWithin(EnNavigation, EnLocation, {})
  {
  }

  lemma HeroLocationEnglishKeysApart()
    ensures SharedKeysWithin(EnHero, EnLocation, {})
  {
  }

  lemma AboutLocationEnglishKeysApart()
    ensures SharedKeysWithin(EnAbout, EnLocation, {})
  {
    AboutLocationEnglishKeysApart0();
    AboutLocationEnglishKeysApart1();
  }

  lemma AboutLocationEnglishKeysApart0()
    ensures forall i, j | 0 <= i < 4 && 0 <= j < |EnLocation| :: EnAbout[i].key != EnLocation[j].key
  {
  }

  lemma AboutLocationEnglishKeysApart1()
    ensures forall i, j | 4 <= i < |EnAbout| && 0 <= j < |EnLocation| :: EnAbout[i].key != EnLocation[j].key
  {
  }

  lemma RoomsLocationEnglishKeysApart()
    ensures SharedKeysWithin(EnRooms, EnLocation, {})
  {
  }

  lemma AmenitiesLocationEnglishKeysApart()
    ensures SharedKeysWithin(EnAmenities, EnLocation, {})
  {
  }

  lemma GalleryLocationEnglishKeysApart()
    ensures SharedKeysWithin(EnGallery, EnLocation, {})
  {
  }

  lemma RestaurantLocationEnglishKeysApart()
    ensures SharedKeysWithin(EnRestaurant, EnLocation, {})
  {
  }

  lemma TestimonialsLocationEnglishKeysApart()
    ensures SharedKeysWithin(EnTestimonials, EnLocation, {})
  {
  }

  lemma NavigationContactEnglishKeysApart()
    ensures SharedKeysWithin(EnNavigation, EnContact, {})
  {
  }

  lemma HeroContactEnglishKeysApart()
    ensures SharedKeysWithin(EnHero, EnContact, {})
  {
  }

  lemma AboutContactEnglishKeysApart()
    ensures SharedKeysWithin(EnAbout, EnContact, {})
  {
    AboutContactEnglishKeysApart0();
    AboutContactEnglishKeysApart1();
  }

  lemma AboutContactEnglishKeysApart0()
    ensures forall i, j | 0 <= i < 4 && 0 <= j < |EnContact| :: EnAbout[i].key != EnContact[j].key
  {
  }

  lemma AboutContactEnglishKeysApart1()
    ensures forall i, j | 4 <= i < |EnAbout| && 0 <= j < |EnContact| :: EnAbout[i].key != EnContact[j].key
  {
  }

  lemma RoomsContactEnglishKeysApart()
    ensures SharedKeysWithin(EnRooms, EnContact, {})
  {
  }

  lemma AmenitiesContactEnglishKeysApart()
    ensures SharedKeysWithin(EnAmenities, EnContact, {})
  {
  }

  lemma GalleryContactEnglishKeysApart()
    ensures SharedKeysWithin(EnGallery, EnContact, {})
  {
  }

  lemma RestaurantContactEnglishKeysApart()
    ensures SharedKeysWithin(EnRestaurant, EnContact, {})
  {
  }

  lemma TestimonialsContactEnglishKeysApart()
    ensures SharedKeysWithin(EnTestimonials, EnContact, {})
  {
  }

  lemma LocationContactEnglishKeysApart()
    ensures SharedKeysWithin(EnLocation, EnContact, {})
  {
  }

  lemma NavigationFooterEnglishKeysApart()
    ensures SharedKeysWithin(EnNavigation, EnFooter, {})
  {
  }

  lemma HeroFooterEnglishKeysApart()
    ensures SharedKeysWithin(EnHero, EnFooter, {})
  {
  }

  lemma AboutFooterEnglishKeysApart()
    ensures SharedKeysWithin(EnAbout, EnFooter, {})
  {
  }

  lemma RoomsFooterEnglishKeysApart()
    ensures SharedKeysWithin(EnRooms, EnFooter, {})
  {
  }

  lemma AmenitiesFooterEnglishKeysApart()
    ensures SharedKeysWithin(EnAmenities, EnFooter, {})
  {
  }

  lemma GalleryFooterEnglishKeysApart()
    ensures SharedKeysWithin(EnGallery, EnFooter, {})
  {
  }

  lemma RestaurantFooterEnglishKeysApart()
    ensures SharedKeysWithin(EnRestaurant, EnFooter, {})
  {
  }

  lemma TestimonialsFooterEnglishKeysApart()
    ensures SharedKeysWithin(EnTestimonials, EnFooter, {})
  {
  }

  lemma LocationFooterEnglishKeysApart()
    ensures SharedKeysWithin(EnLocation, EnFooter, {})
  {
  }

  lemma ContactFooterEnglishKeysApart()
    ensures SharedKeysWithin(EnContact, EnFooter, {})
  {
  }

  /**
   * The `es` literal declares "Free WiFi" twice: as "WiFi Gratuito" in the
   * amenities section and as "WiFi gratuito" in the contact section.
   */
  lemma FreeWiFiDeclaredTwice()
    ensures EsAmenities[1] == Entry("Free WiFi", "WiFi Gratuito")
    ensures EsContact[13] == Entry("Free WiFi", "WiFi gratuito")
  {
  }

  /**
   * The contact declaration wins: whatever precedes the contact and footer
   * sections (in `SpanishEntries`, the first nine sections), the `es` map
   * sends "Free WiFi" to "WiFi gratuito".
   */
  lemma SpanishFreeWiFi(p: seq<Entry>)
    ensures "Free WiFi" in ObjectLiteral(p + EsContact + EsFooter)
    ensures ObjectLiteral(p + EsContact + EsFooter)["Free WiFi"] == "WiFi gratuito"
  {
    var s := p + EsContact + EsFooter;
    assert s[|p| + 13] == EsContact[13] == Entry("Free WiFi", "WiFi gratuito");
    assert LastDeclaration(s, |p| + 13);
    LastDeclarationWins(s, |p| + 13);
  }

  /**
   * The `en` map sends "WiFi Gratuito" to "Free WiFi": the amenities section
   * declares it and no later section does, whatever precedes the amenities
   * section (in `EnglishEntries`, the first four sections).
   */
  lemma EnglishWiFiGratuito(p: seq<Entry>)
    ensures "WiFi Gratuito" in
      ObjectLiteral(p + EnAmenities + EnGallery + EnRestaurant + EnTestimonials + EnLocation + EnContact + EnFooter)
    ensures ObjectLiteral(p + EnAmenities + EnGallery + EnRestaurant + EnTestimonials + EnLocation + EnContact + EnFooter)
              ["WiFi Gratuito"] == "Free WiFi"
  {
    var k := "WiFi Gratuito";
    var a := p + EnAmenities;
    assert a[|p| + 1] == EnAmenities[1] == Entry(k, "Free WiFi");
    assert LastDeclaration(a, |p| + 1);
    LastDeclarationWins(a, |p| + 1);
    LaterSectionsLackWiFiGratuito();
    UndeclaredSuffix(a, EnGallery, k);
    UndeclaredSuffix(a + EnGallery, EnRestaurant, k);
    UndeclaredSuffix(a + EnGallery + EnRestaurant, EnTestimonials, k);
    UndeclaredSuffix(a + EnGallery + EnRestaurant + EnTestimonials, EnLocation, k);
    UndeclaredSuffix(a + EnGallery + EnRestaurant + EnTestimonials + EnLocation, EnContact, k);
    UndeclaredSuffix(a + EnGallery + EnRestaurant + EnTestimonials + EnLocation + EnContact, EnFooter, k);
  }

  /** No `en` section after the amenities section declares "WiFi Gratuito". */
  lemma LaterSectionsLackWiFiGratuito()
    ensures !Declares(EnGallery, "WiFi Gratuito") && !Declares(EnRestaurant, "WiFi Gratuito")
    ensures !Declares(EnTestimonials, "WiFi Gratuito") && !Declares(EnLocation, "WiFi Gratuito")
    ensures !Declares(EnContact, "WiFi Gratuito") && !Declares(EnFooter, "WiFi Gratuito")
  {
  }
  /**
   * Because of that duplicate the two maps are not inverse as wholes: a label
   * "WiFi Gratuito" (the amenities card) switched to English and back reads
   * "WiFi gratuito". `p` and `q` stand for the sections before the contact
   * section of `es` and before the amenities section of `en`.
   */
  lemma FreeWiFiLabelDrift(table: PageContent.Translations, e: PageContent.Element, p: seq<Entry>, q: seq<Entry>)
    requires "es" in table && table["es"] == ObjectLiteral(p + EsContact + EsFooter)
    requires "en" in table && table["en"] ==
      ObjectLiteral(q + EnAmenities + EnGallery + EnRestaurant + EnTestimonials + EnLocation + EnContact + EnFooter)
    requires PageContent.Selected(e) && !PageContent.IsWhatsAppAnchor(e) && Trim(e.text) == "WiFi Gratuito"
    ensures PageContent.RewriteElement(table, "es", PageContent.RewriteElement(table, "en", e))
            == e.(text := "WiFi gratuito")
    ensures "WiFi gratuito" != Trim(e.text)
  {
    SpanishFreeWiFi(p);
    EnglishWiFiGratuito(q);
    LabelsTranslate();
    PageContent.SwitchTwice(table, e, "en", "es", "Free WiFi", "WiFi gratuito");
  }

  /** The three forms of the label are trimmed, translatable text. */
  lemma LabelsTranslate()
    ensures Trim("Free WiFi") == "Free WiFi" && !PageContent.SkipsText("Free WiFi")
    ensures !PageContent.SkipsText("WiFi Gratuito") && "WiFi gratuito" != "WiFi Gratuito"
  {
    var s := "Free WiFi";
    assert s[0] == 'F' && s[|s| - 1] == 'i';
    assert !IsWhitespace('F') && !IsWhitespace('i');
    assert !PageContent.IsNumericClass(s[0]);
    assert !PageContent.IsNumericClass("WiFi Gratuito"[0]);
    assert "WiFi gratuito"[5] != "WiFi Gratuito"[5];
  }
}
